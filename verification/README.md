# Unraid plugin: a verified model

This project models the parts of the Unraid plugin that change a host or decide what may be
shown of it, and proves what they promise. It covers eight components.

- **The adopt and set_icon saga** (`Docker`, `BindPaths`, `Conversions`, `Suffixes`, `Plans`, `PlanLaws`, `Saga`,
  `SagaApply`, `SagaSteps`, `SagaUndo`, `SagaRollback`, `SagaWrites`, `SagaRemovals`, `SagaListing`, `SagaAdopt`,
  `SagaFailures`). A planner turns a snapshot into
  an ordered list of steps; `apply` runs them, compensates a failure before the rebuild, and from the
  rebuild on reports a recovery. The host is explicit state: the container's running flag and run
  times, the templates directory, the autostart file, the container's appdata directory, the volumes
  with their data, labels and creation times, and which volumes are mounted. Every call a step makes
  may fail, and between steps others may start or stop the container and write its volumes.
- **The staging and backup protocols** (`Stages`, `Templates`, `Names`, `HostAutostart`). Many runs
  share one appdata or templates directory; a stage is recognised by a token inside it, a template
  backup by the run's id, and each system call may fail half way. The saga uses these very
  operations, not an abstraction of them.
- **The fsid planner** (`FsidHash`, `FsidHashLaws`, `NfsFsid`, `NfsFsidReport`): linear probing with wrap-around.
- **The smb.conf rewriter against its own reader** (`SmbRequest`, `SmbRewrite`, `SmbRewriteLaws`,
  `SmbShares`, `SmbSpelled`, `SmbMode`, `SmbFailures`), and the two-file transaction on top of it (`ShareCfg`, `SmbApply`).
- **The Docker autostart protocol** (`StableSort`, `Autostart`, `AutostartLaws`, `AutostartProtocol`).
- **Streaming XML redaction** (`VmXml`, `VmXmlTree`, `VmXmlShown`), from parsed events.
- **The NFS host-list printer and parser** (`NfsExports`, `NfsExportsLaws`).
- **Interval masking of inline secrets** (`SecretMask`, `SecretMaskLaws`).

`Wrappers`, `Text`, `Numerals` and `Ordering` hold the string, numeral and sorting functions they
share. Code that loops or updates state in the source is a method with the source's loop, or a class,
proved against a specification function; the laws are lemmas about those functions. What the host
answers (a failing call, a partial write, what `cp` leaves, what docker drops) is a parameter of the
operation, so a statement over all parameters is one over all such answers.

## What the model shows about the code

Nine promises hold only under a condition. In each case the model keeps the code as it is, proves the
condition exact unless it says otherwise, and gives an input on which the promise fails.

- A failure before the rebuild leaves a volume behind exactly when the failing step is the creation of
  that volume, `docker volume create` went through, and the checks after it did not: the volume is
  recorded as the run's only after them (`SagaUndo.VolumeLeftIffLateFailure`,
  src/docker_adopt/mod.rs:542-580). `SagaFailures.VolumeIsLeft` is such a run of an ordered plan.
- It leaves a stage behind exactly when the failing step is a copy whose own discard did not get to
  its end: only copies that succeeded are removed again (`SagaUndo.StageLeftIffLateCopy`,
  src/docker_adopt/privileged.rs:394-397; `SagaFailures.StageIsLeft`).
- With every call going through, the compensations of a failure before the rebuild all succeed exactly
  unless the failing step is an exposure that took its stage's token and left the stage
  (`SagaRollback.CompensationSucceedsIff`, src/docker_adopt/privileged.rs:470-477;
  `SagaFailures.StageCannotGo`).
- A volume a run removes is in a verified copy exactly when the plan migrates or converts it. set_icon
  goes on when it can convert only some anonymous volumes or none, and adopt when it could not inspect
  one (src/docker_adopt/mod.rs:2058-2091 and 1685-1692); then nothing but docker's keeping the volume at
  the rebuild, which README.md:60 promises and src/docker_adopt/mod.rs:478 does not rely on, keeps it
  (`SagaAdopt.SetIconNoLostWrite`, `SagaAdopt.AdoptNoLostWrite`; `SagaFailures.UncopiedCanGo`).
- A rewritten SMB share still makes every connection a guest's exactly when the last `only guest` line of
  its section says yes: the reader takes that key for `guest only`, and the rewriter does not remove it.
  Lines that continue a kept one count too
  (`SmbMode.GuestOnlyIffStaleLine`, src/smb_share_write.rs:180-203, src/smb_shares.rs:87;
  `SmbFailures.OnlyGuestSurvives`).
- Rewriting a section twice gives the same text as rewriting it once exactly when no line of the conf
  that the first pass keeps ends in a carriage return (`SmbRewriteLaws.RewriteTwiceIff`;
  `SmbFailures.CarriageReturnsGo`).
- The rewriter takes a line that continues another as part of it, the reader as a line of its own. So a
  rewritten share has the requested access exactly when the continuing lines kept in its section agree
  with it (`SmbMode.AccessIffStaleAgrees`; `SmbFailures.ContinuedLineSurvives`). Its other settings and
  the other shares are as before if no continuing line is a header of or in its section, or is dropped
  and sets the path or the guest account (`SmbMode.RequestedAccessIsParsed`, one way; `SmbFailures.ContinuedHeaderLoses`,
  `SmbFailures.ContinuedPathGoes`).
- A share with the requested access reads back with the requested mode exactly unless that is secure and
  the guest account is in the write list (`SmbMode.RequestedModeIsParsedMode`;
  `SmbFailures.GuestWriterIsNotSecure`).
- The exports line printed for a validated entry is accepted by the check exactly when the entry has
  an option and no client starts with `-` (`NfsExportsLaws.PrintedEntryChecksIff`;
  `NfsExportsLaws.FlaggedClientIsReported`, `NfsExportsLaws.NoOptionIsReported`).

## Model

| member | source | states |
|---|---|---|
| SagaApply.Runner.EnsureStoppedStep | src/docker_adopt/mod.rs:508-541 | the loop over the sources passes exactly if the container is stopped with the recorded run times and every source, converted ones with extended attributes, equals its copy |
| SagaApply.Runner.RemoveOwnStep | src/docker_adopt/mod.rs:470-507 | the walk removes just the unmounted candidates proved unchanged, and keeps what it removed if it stops half way |
| SagaApply.Runner.CreateVolumeStep | src/docker_adopt/mod.rs:542-580 | creating goes through on a volume someone else made in between; only one that carries just the labels and is empty is recorded, and a failure in between leaves it unrecorded |
| SagaApply.Runner.CopyVolumeStep | src/docker_adopt/privileged.rs:745-781 | the root side's create and fill operations, one after the other, come to the specified directory, outcome and digest |
| SagaApply.Runner.CopyIntoStep | src/docker_adopt/privileged.rs:404-454 | only an empty unused target is copied into, and what does not compare equal with attributes is cleared again |
| SagaApply.Runner.RemoveVolumeStep | src/docker_adopt/mod.rs:459-469 | a migrated volume goes only while the container runs, the volume is unmounted and equals its copy |
| SagaApply.Runner.Perform | src/docker_adopt/mod.rs:349-609 | every step, done call by call with the operations of the root side, has the specified effect on the host and the run's state, for every answer of the host |
| SagaApply.Runner.Apply | src/docker_adopt/mod.rs:688-819 | the loop with its flags yields a trace of the specified steps; it succeeds exactly if all did, compensates a failure before the rebuild and changes nothing more after it |
| SagaApply.Runner.RollBack | src/docker_adopt/mod.rs:755-811 | the five compensations leave exactly the specified host, whichever of them fail |
| SagaSteps.StopStops | src/docker_adopt/mod.rs:354-362 | a stop that goes through leaves the container stopped without a new start, and notes its run times if it can be looked at |
| SagaSteps.EnsureStateSets | src/docker_adopt/mod.rs:407-414 | succeeds exactly if the container is as wanted or the call goes through, and then it is as wanted; one that is so already is not touched |
| SagaSteps.VerifyLooks | src/docker_adopt/mod.rs:415-453 | changes nothing, and does not pass a container that was running and is not |
| SagaSteps.StoppedCheckIff | src/docker_adopt/mod.rs:508-541 | passes exactly if the container is stopped with the run times noted, and every volume copied or converted is there with the digest noted |
| SagaSteps.SinceSpelled | src/docker_adopt/mod.rs:312-336 | what cannot be read is neither the same nor changed, and what was never copied is changed |
| SagaSteps.RebuildBrings | src/docker_adopt/mod.rs:403-406 | needs the template, starts the container exactly if it is listed, and drops no volume but its own anonymous ones |
| SagaSteps.CopyIff | src/docker_adopt/privileged.rs:745-781 | a copy is made only of a stopped container, and succeeds exactly if its stage could be made and what was copied is a directory with the digest of the volume |
| SagaSteps.CreateIff | src/docker_adopt/privileged.rs:323-342 | a stage can be made exactly where neither the folder nor the stage is |
| SagaSteps.CopyIntoIff | src/docker_adopt/privileged.rs:404-454 | only into an empty unmounted volume of a stopped container, of which just the root changes, cleared unless verified with attributes |
| SagaSteps.ExposeIff | src/docker_adopt/mod.rs:372-379 | succeeds exactly if the stage was there and is gone, and changes the directory only |
| SagaSteps.CreateVolumeIff | src/docker_adopt/mod.rs:542-580 | makes a volume only where none is, and notes it as the run's exactly if it has just the labels, nothing in it, and both could be seen |
| SagaSteps.RemoveVolumeIff | src/docker_adopt/mod.rs:459-469 | removes only an unmounted volume that is as noted, of a running container; keeping it is a failure only if it could not be read or its removal is refused |
| SagaSteps.WalkStep | src/docker_adopt/mod.rs:470-507 | the walk takes a candidate that is as noted, goes past one that is mounted, gone or changed, and stops at one it cannot look up, read or remove |
| SagaSteps.RemoveOwnIff | src/docker_adopt/mod.rs:470-507 | the step is the walk, if it can see what is mounted |
| SagaSteps.SaveInspectIff | src/docker_adopt/mod.rs:380-387 | the old container is saved under the run's id, never over a file that is there |
| SagaSteps.WriteTemplateIff | src/docker_adopt/mod.rs:388-395 | writes as the templates directory does, and nothing else |
| SagaSteps.SetAutostartIff | src/docker_adopt/mod.rs:396-402 | afterwards the file lists the container as told, if the call took effect, and every other name as before |
| SagaRemovals.MigratedGoesIff | src/docker_adopt/mod.rs:459-469 | with its calls going through, the step removes the volume exactly if the container runs, nobody mounts the volume and it is what its last copy was made of; otherwise it keeps it, and that is a failure only for a mounted one |
| SagaRemovals.MigratedGoesOnlyRunning | src/docker_adopt/mod.rs:459-469 | whatever the host answers, a migrated volume goes at such a step only then |
| SagaRemovals.ConvertedGoIff | src/docker_adopt/mod.rs:470-507 | with its calls going through, the walk removes exactly the candidates nobody mounts that are what their last copies were made of |
| SagaRemovals.ConvertedGoesOnlyUnmounted | src/docker_adopt/mod.rs:470-507 | whatever the host answers, a volume goes there only then |
| SagaRollback.CompensationSucceedsIff | src/docker_adopt/mod.rs:755-811 | after a failure before the rebuild, whoever interfered, with every call going through all compensations succeed, exactly unless the failing step was an exposure that took its stage's token and left the stage |
| SagaUndo.OpKeepsStages | src/docker_adopt/mod.rs:789-798 | a staging operation of this run keeps all entries that were there before the run and makes no other stage look like its own |
| SagaUndo.CopyKeepsApp | src/docker_adopt/mod.rs:363-371 | after a copy the directory differs from the original only by stages of copies, exposed copies and, if the copy failed and could not discard it, its own stage |
| SagaUndo.FailedCopyLeaves | src/docker_adopt/privileged.rs:323-397 | a failed copy leaves its stage exactly if making or discarding it stopped half way, and touches nothing else |
| SagaUndo.ExposeKeepsApp | src/docker_adopt/mod.rs:372-379 | the same after an exposure, also one that failed after the move |
| SagaUndo.UndoCopiesLeaves | src/docker_adopt/mod.rs:789-798 | when all removals succeed, only exposed copies are new, and the stage a failed copy left, even if stage names collide |
| SagaUndo.UndoCreatedRemoves | src/docker_adopt/mod.rs:799-807 | when all succeed, exactly the recorded volumes are gone and all others are untouched |
| SagaUndo.RollBackRestores | src/docker_adopt/mod.rs:755-811 | from any state a run can be in before its rebuild, whoever interfered, successful compensations restore template, autostart membership, appdata and volumes, and the container runs if it did or was stopped for the run |
| SagaUndo.EventsUndoable | src/docker_adopt/mod.rs:694-754 | what others do between steps leaves a state the compensations can undo |
| SagaUndo.StepUndoable | src/docker_adopt/mod.rs:694-754 | every early step, succeeding or failing, leaves a state the compensations can undo |
| SagaUndo.PrefixUndoable | src/docker_adopt/mod.rs:694-754 | so does every prefix of a run, by induction over its steps, whatever others do between them |
| SagaUndo.FailureIsUndone | src/docker_adopt/mod.rs:688-819 | for every well-ordered plan, failing step, host answers and interference by others: if the compensations succeed, the template (or its absence), every name's autostart membership, all appdata entries and all original volumes are as before, except the data of reused targets and of volumes others wrote, exposed copies, and what a late failure left; the container runs exactly if it ran at the failure or had been stopped for the run |
| SagaUndo.VolumeLeftIffLateFailure | src/docker_adopt/mod.rs:542-580 | under any interference, the set of volumes is the original one if and only if the failure is not a creation whose checks did not go through |
| SagaUndo.StageLeftIffLateCopy | src/docker_adopt/privileged.rs:394-397 | something new that is no exposed copy is left in appdata if and only if the failure is a copy whose stage was not wholly made or discarded |
| SagaUndo.QuietFailureIsUndone | src/docker_adopt/mod.rs:688-819 | without interference the container also runs exactly if it did, and only reused targets may differ |
| SagaFailures.VolumeIsLeft | src/docker_adopt/mod.rs:542-580 | a run of an ordered plan on a host ready for it whose compensations all succeed and whose created volume is still there |
| SagaFailures.StageIsLeft | src/docker_adopt/privileged.rs:394-397 | a run of an ordered plan whose compensations all succeed and whose stage is still in appdata |
| SagaFailures.StageCannotGo | src/docker_adopt/privileged.rs:470-477 | a run of an ordered plan whose exposure fails so: the calls go through and the compensations do not all succeed |
| SagaFailures.UncopiedCanGo | src/docker_adopt/mod.rs:2035-2056 | for every plan of set_icon that converts nothing and every anonymous volume of the container, a run nobody disturbs that removes the volume without a copy, if docker drops it |
| SagaWrites.StepManifests | src/docker_adopt/mod.rs:722-727 | a manifest is recorded only by a copy that succeeded, is the digest of what was copied, and the copy has it |
| SagaWrites.StepRemoves | src/docker_adopt/mod.rs:459-507 | a step that removes a volume is a removal whose comparison held, or a rebuild dropping an anonymous volume |
| SagaWrites.ManifestHasCopy | src/docker_adopt/mod.rs:722-727 | every recorded manifest goes back to a copy made earlier in the run |
| SagaWrites.NoLostWrite | src/docker_adopt/mod.rs:312-336 | whenever a step removes a volume, the run holds a verified copy of just the content the volume still has, and the new container was verified or the rebuild came directly after the stopped check, if and only if some step copies the volume; any other volume that goes is an anonymous one of the container that docker dropped at the rebuild |
| SagaWrites.WrittenSourceSurvives | src/docker_adopt/mod.rs:459-541 | a volume that differs from what was copied of it stays to the end of the run, whoever interferes, unless no step copies it and docker drops it at the rebuild |
| SagaWrites.RemovedCopyIsThere | src/docker_adopt/mod.rs:459-469 | when a volume that is not converted is removed, a folder holds a tree with the digest it still has if and only if a step copies it |
| SagaWrites.UndoKeepsOthers | src/docker_adopt/mod.rs:799-807 | compensation never removes a volume whose name and creation time this run did not record |
| SagaWrites.CheckedMeansNeverRan | src/docker_adopt/mod.rs:508-528 | unchanged run times mean the container ran at no moment since they were recorded |
| SagaWrites.NeverRanSinceCopied | src/docker_adopt/mod.rs:508-528 | in a run that reaches its rebuild the container never ran from the first copy on |
| SagaWrites.RebuildBuildsOnCopies | src/docker_adopt/mod.rs:529-541 | when the rebuild begins, every copied source still equals its verified copy |
| SagaListing.ListedAsSimulated | src/docker_adopt/mod.rs:938-955 | at every point of a run the autostart file lists the container as the simulated step list says |
| SagaListing.RunEndsAsPlanned | src/docker_adopt/mod.rs:938-955 | a successful rebuild leaves the container running exactly if it ran, and a finished run lists it exactly as planned |
| SagaAdopt.PlanCopiesIff | src/docker_adopt/mod.rs:1093-1161 | the steps of a plan copy exactly the volumes it migrates or converts |
| SagaAdopt.AdoptNoLostWrite | src/docker_adopt/mod.rs:957-1161 | for whatever adopt plans from any snapshot and options: a volume its run removes is in a verified copy, if migrated in its folder at that moment, exactly if it is migrated or the snapshot has it as an anonymous volume of the container; any other was dropped by docker at the rebuild |
| SagaAdopt.AdoptFailureIsUndone | src/docker_adopt/mod.rs:957-1161 | compensation under any interference, for whatever adopt plans from any snapshot and options, whatever volumes the container has |
| SagaAdopt.SetIconNoLostWrite | src/docker_adopt/mod.rs:2035-2091 | for whatever set_icon plans, with all, some or none of the anonymous volumes converted: a volume its run removes is in a verified copy exactly if its conversion was applied; any other was dropped by docker at the rebuild, and if the snapshot has it, it was reported as not applied |
| SagaAdopt.SetIconFailureIsUndone | src/docker_adopt/mod.rs:1806-1851 | compensation under any interference, for whatever set_icon plans, with all, some or none of the anonymous volumes converted |
| Plans.PlanAdopt | src/docker_adopt/mod.rs:957-1161 | the steps and destinations as a function of the snapshot, and no blocker exactly if, spelled out: every volume to migrate is an inspected plain local one, its data in place, that no other container mounts, and no container's bind reaches into its folder; every anonymous volume that is not migrated may be converted; and no two converted names clash |
| Plans.SetIconPatch | src/docker_adopt/mod.rs:2035-2091 | the conversions applied and those reported as not applied, as a function of what the template takes; blocked only if it takes the labels and some conversion is impossible |
| Plans.SetIconSteps | src/docker_adopt/mod.rs:1806-1851 | its own pushes come to the steps of a plan without migrations that removes exactly the converted volumes |
| Plans.AddConversionSteps | src/docker_adopt/mod.rs:1207-1220 | each conversion creates its volume unless it is reused, and then copies into it |
| PlanLaws.PlanFramed | src/docker_adopt/mod.rs:1093-1161 | one rebuild, only steps that a failure undoes before it, only late ones after it |
| PlanLaws.PlanGuarded | src/docker_adopt/mod.rs:1117-1120 | the rebuild is directly preceded by the stopped check exactly when something is copied |
| PlanLaws.PlanStoppedFirst | src/docker_adopt/mod.rs:1093-1104 | a running container is stopped once, before every copy |
| PlanLaws.PlanStopsIff | src/docker_adopt/mod.rs:1093-1096 | the container is stopped exactly if it runs and something is copied |
| PlanLaws.PlanExposes | src/docker_adopt/mod.rs:1097-1116 | every exposure comes after its copy and every staged copy is exposed |
| PlanLaws.PlanCopiesDistinct | src/docker_adopt/mod.rs:1097-1103 | no two volumes are staged for the same folder |
| PlanLaws.PlanRemovesLast | src/docker_adopt/mod.rs:1122-1161 | every removal comes after the verification |
| PlanLaws.PlanListing | src/docker_adopt/mod.rs:938-955 | simulating the list gives membership equal to the running state at the rebuild and to the planned value at the end |
| PlanLaws.PlanPrepared | src/docker_adopt/mod.rs:1093-1110 | the root path is probed first, and before the rebuild the old container is saved and then its template written |
| PlanLaws.PlanVerified | src/docker_adopt/mod.rs:1122-1131 | the running state is put right just before it is verified |
| PlanLaws.PlanCopiesAll | src/docker_adopt/mod.rs:1097-1140 | every migration is copied, exposed and removed, and every conversion created unless reused and copied, under its own names |
| PlanLaws.PlanTargetsMade | src/docker_adopt/mod.rs:1207-1220 | every volume copied into is a reused one or was created before |
| PlanLaws.ConvertedAreLeftovers | src/docker_adopt/mod.rs:1141-1147 | the anonymous volumes to remove are exactly the converted ones, in order |
| PlanLaws.AdoptDestinations | src/docker_adopt/mod.rs:1052-1147 | nothing is both migrated and converted, at most one of the two happens at all, and the migrated folders are distinct |
| PlanLaws.TakenIsOwn | src/docker_adopt/mod.rs:1003-1060 | if nothing blocks, every volume a step copies or removes is a plain local one that the container mounts and no other does |
| PlanLaws.AdoptWellOrdered | src/docker_adopt/mod.rs:957-1161 | all the order laws, for every snapshot and options of adopt |
| PlanLaws.ConvertedOrReported | src/docker_adopt/mod.rs:2058-2091 | set_icon converts or reports each anonymous volume of the snapshot, and converts no other |
| PlanLaws.SetIconWellOrdered | src/docker_adopt/mod.rs:1806-1851 | all the order laws, for every plan of set_icon, whatever it converts |
| Conversions.PlanConversions | src/docker_adopt/ownership.rs:93-165 | the conversions of just the anonymous volumes not skipped; no problem is reported if and only if each is convertible and the new names differ ignoring case |
| Conversions.ConversionsSound | src/docker_adopt/ownership.rs:93-165 | without problems, each conversion is of a volume only this container mounts, to a valid name, reused exactly if it exists, carrying exactly this mount's labels and unused |
| Conversions.SlugShape | src/docker_adopt/ownership.rs:38-55 | a slug is not empty and holds only lower-case letters, digits and `_` |
| Conversions.SlugTwice | src/docker_adopt/ownership.rs:38-55 | a slug is its own slug |
| Conversions.NamesClashIff | src/docker_adopt/ownership.rs:86-88 | two targets' names clash ignoring case exactly when their slugs are equal |
| Conversions.ConvertedNameValidIff | src/docker_adopt/ownership.rs:86-88 | for a valid container name only the length can make a converted name invalid |
| Conversions.ConvertibleSpelled | src/docker_adopt/ownership.rs:107-150 | a mount may be converted exactly if its volume is plain, local and not shared, its path can be a `--mount` field, and its new name is valid and free or held by an unused volume with exactly its labels |
| Conversions.ConversionNamed | src/docker_adopt/ownership.rs:150-162 | a conversion is of a mount of the container, named after its path, with its access |
| Conversions.SlugIsSqueezed | src/docker_adopt/ownership.rs:38-55 | a slug is the letters and digits of the path in order, in small letters, with one `_` for what stood between them |
| BindPaths.OverlapsIff | src/docker_adopt/orphans.rs:35-81 | a bind overlaps the folder of a copy exactly if, on whatever pool, it lies on the way from the share to the folder or below it, or is `/`, `/mnt` or `/mnt/user` |
| Docker.Unmounted | src/docker_adopt/orphans.rs:110-121 | exactly the candidates no container mounts |
| Suffixes.AppdataSuffixes | src/docker_adopt/orphans.rs:245-267 | the nested loop ends, and names each volume by the first numbered candidate none before it took |
| Suffixes.SuffixesDistinct | src/docker_adopt/orphans.rs:245-267 | the names are pairwise distinct for any list of volumes |
| Suffixes.AssignmentUnique | src/docker_adopt/orphans.rs:245-267 | the assignment is the only one of that kind |
| Suffixes.BaseSpelled | src/docker_adopt/orphans.rs:245-260 | a folder's base is what is left of the volume's name once the container's and then the project's prefix are dropped, or `data` |
| Stages.AppDir.CreateStage | src/docker_adopt/privileged.rs:323-338 | what is in the directory after each way the creation can go or stop, and when it succeeds |
| Stages.AppDir.DiscardStage | src/docker_adopt/privileged.rs:312-319 | what a discard that stops anywhere leaves; it succeeds exactly if the stage is gone |
| Stages.AppDir.FillStage | src/docker_adopt/privileged.rs:344-398 | a copy counts only if its digest equals the source's, else the stage is discarded |
| Stages.AppDir.RemoveStaged | src/docker_adopt/privileged.rs:458-467 | only a stage that passes the pair's check is removed |
| Stages.AppDir.ExposeStaged | src/docker_adopt/privileged.rs:470-477 | the data is moved to a free destination, and success means the stage is gone |
| Stages.HoldsSpelled | src/docker_adopt/privileged.rs:294-311 | a stage is a pair's only if it is a directory of root's, closed to all others, under the pair's name with the pair's token in it |
| Stages.CreateSpelled | src/docker_adopt/privileged.rs:323-342 | a stage is made closed and with its token, or with what of it was written before a call failed |
| Stages.RemoveSpelled | src/docker_adopt/privileged.rs:312-320 | a discard removes the copy, then the token, then the directory if nothing else is in it, and stops where a call fails |
| Stages.FillSpelled | src/docker_adopt/privileged.rs:344-397 | a copy stays in the stage exactly if it passed and is a directory with the source's digest; any other is discarded with it |
| Stages.ExposeSpelled | src/docker_adopt/privileged.rs:470-477 | an exposure moves the copy to a free name, then removes token and directory; where it cannot move, nothing happens |
| Stages.TokenTellsPairs | src/docker_adopt/privileged.rs:287-289 | not even a partly written token of one pair is the token of another |
| Stages.StepFrame | src/docker_adopt/privileged.rs:280-338 | an operation leaves alone all but its own stage's name and a free destination |
| Stages.StepMakesOwnStage | src/docker_adopt/privileged.rs:294-338 | after any operation a stage passes a pair's check only if it did before or was just created for that pair |
| Stages.StepKeepsOthersStage | src/docker_adopt/privileged.rs:294-308 | a pair's stage is untouched by every other pair, even under a colliding name |
| Stages.StagesAreOwn | src/docker_adopt/privileged.rs:269-308 | in every interleaving, a stage that passes a pair's check was created for that pair |
| Stages.StageIsolation | src/docker_adopt/privileged.rs:280-338 | in every interleaving, for any hash, whatever an operation changes or removes is a stage created for its own pair |
| Stages.DestinationStays | src/docker_adopt/privileged.rs:458-477 | an exposed copy is never changed, replaced or removed by a later operation |
| Stages.ExposedIsVerified | src/docker_adopt/privileged.rs:344-477 | what a run exposes is the copy it verified, whatever others did in between, and it stays |
| Templates.TemplateDir.WriteTemplateIn | src/docker_adopt/privileged.rs:509-527 | the saved backup or sentinel and the new template, for every way the write can stop |
| Templates.TemplateDir.RestoreTemplateIn | src/docker_adopt/privileged.rs:547-577 | the backup is put back; without one, the run's template goes and the sentinel with it |
| Templates.RestoreIffMarked | src/docker_adopt/privileged.rs:560-577 | with a sentinel and no backup, a template that is not empty is removed exactly if orca's marker stands in it; any other stays and the restore fails |
| Templates.WriteSpelled | src/docker_adopt/privileged.rs:509-540 | a write saves what it replaces first, never over a file; stopped half way, the template is as it was |
| Templates.RunIdSpelled | src/docker_adopt/privileged.rs:204-233 | a run id is a moment that exists, to the second, and eight hexadecimal digits |
| Templates.PathsApart | src/docker_adopt/template.rs:19-29 | templates, backups and sentinels of all names and run ids are different files |
| Templates.FailedWriteKeepsTemplate | src/docker_adopt/privileged.rs:509-527 | a failed write leaves the template as it was |
| Templates.WriteThenRestore | src/docker_adopt/privileged.rs:509-574 | a write is undone by its restore, absence included |
| Templates.PerformFrame | src/docker_adopt/privileged.rs:509-574 | runs never touch what another run keeps |
| Templates.NestedRunsRestore | src/docker_adopt/privileged.rs:509-574 | any nesting of runs with distinct ids, interleaved with other containers' operations, succeeds and returns the template to what each run found |
| HostAutostart.AutostartReadsBack | src/docker_adopt/host.rs:186-214 | nothing is written exactly when the membership is as wanted; else the file reads back with just the name appended or just its lines gone |
| HostAutostart.AutostartUndone | src/docker_adopt/host.rs:194-214 | switching a name and back leaves every name's membership as it was |
| HostAutostart.OtherLinesSurvive | src/docker_adopt/host.rs:194-213 | the lines of other names survive a write as they are, wait values and all |
| FsidHashLaws.Utf8Decodes | src/nfs_fsid.rs:94-98 | a character's bytes are its UTF-8 encoding: in range, and decoded to the character (section 3 of RFC 3629) |
| FsidHashLaws.GoldenVectors | src/nfs_fsid.rs:457-462 | the hash has FNV-1a's published values |
| FsidHashLaws.FsidOfShare | src/nfs_fsid.rs:115-117 | an fsid is the hash of key and share between 1000 and 2^30 + 999 |
| FsidHashLaws.FsidOfPbs | src/nfs_fsid.rs:626-630 | the fsid the tests expect of one share |
| NfsFsid.Probe | src/nfs_fsid.rs:137-144 | the wrap-around probe ends whenever a slot is free, at the first free one |
| NfsFsid.PlaceFixed | src/nfs_fsid.rs:127-136 | shares at their hash are placed there before any other |
| NfsFsid.PlanFsids | src/nfs_fsid.rs:122-146 | the loops compute the plan: fixed shares at their hash, the others in name order at the first slot free of everything before |
| NfsFsidReport.FewFsidsHaveRoom | src/nfs_fsid.rs:115-146 | with at most 2^30 reserved fsids and shares the probes end, within 32 bits |
| NfsFsidReport.MovedShareIsFresh | src/nfs_fsid.rs:122-146 | a moved share's fsid differs from every reserved one and every other share's |
| NfsFsidReport.PlanInjectiveIffFixedHashesDiffer | src/nfs_fsid.rs:122-146 | the plan is injective if and only if the fixed shares have different hashes |
| NfsFsidReport.PlanUnique | src/nfs_fsid.rs:122-146 | there is only one plan |
| NfsFsidReport.RoomIsNecessary | src/nfs_fsid.rs:137-144 | a plan exists only if there are as many free slots as shares to move |
| NfsFsidReport.ReplanningChangesNothing | src/nfs_fsid.rs:332-350 | writing the plan back and planning again, with tables rebuilt from the new lines, gives exactly the same plan |
| NfsFsidReport.OneLineAgrees | src/nfs_fsid.rs:332-350 | one line per share is enough for that |
| NfsFsidReport.ShareSpelled | src/nfs_fsid.rs:318-322 | a line is a share's exactly if its path is a folder right below `/mnt/user` |
| Numerals.ParsesDigits | src/nfs_fsid.rs:334 | digits, with a `+` before them or without, are the fsid of their value if it is below 2^32 |
| Numerals.ParsesNothingElse | src/nfs_fsid.rs:334 | nothing else is an fsid |
| NfsFsidReport.ReservedSpelled | src/nfs_fsid.rs:342-349 | taken are the fsids of lines that are no share's and of shares at their hash |
| SmbRewrite.RewriteLines | src/smb_share_write.rs:219-249 | the single pass with the continuation flag computes the edit of logical lines: access groups in matching sections dropped, the rest verbatim, the new lines after each matching header |
| SmbRewrite.RewriteSection | src/smb_share_write.rs:215-253 | the whole rewrite, with its error for a missing section |
| SmbRewriteLaws.LogicalLinesFlatten | src/smb_share_write.rs:220-230 | grouping physical lines into logical ones only regroups them |
| SmbRewriteLaws.GroupShape | src/smb_share_write.rs:220-230 | a logical line is a maximal run of continued lines |
| SmbRewriteLaws.EditTwice | src/smb_share_write.rs:215-253 | editing the edited lines changes nothing |
| SmbRewriteLaws.RewriteTwiceIff | src/smb_share_write.rs:215-253 | rewriting the text twice equals once if and only if no line of the conf's logical lines that are kept ends in a carriage return |
| SmbShares.Parse | src/smb_shares.rs:68-106 | the reader's loop computes the shares line by line |
| SmbSpelled.AccessLineSpelled | src/smb_share_write.rs:180-210 | a line is replaced exactly if what stands before its first `=` spells one of the eighteen access words, white space, `_` and case aside |
| SmbSpelled.SettingSpelled | src/smb_shares.rs:84-96 | each setting changes its own field as told and no other; `read only` is the opposite of `writeable` |
| SmbSpelled.ReadLineSpelled | src/smb_shares.rs:70-85 | a header opens a section with everything off, blank lines and comments are passed over, and a setting is split at its first `=` |
| SmbSpelled.ModeSpelled | src/smb_shares.rs:33-53 | public if guests connect and may write, secure if they only connect, private if they do not |
| SmbSpelled.AccountSpelled | src/smb_shares.rs:97-101 | guests run as the account of the first `global` section that names one, else as nobody |
| SmbSpelled.RequestSpelled | src/smb_share_write.rs:101-138 | a request is taken exactly if its names are valid, no list is longer than 64 and its lists fit its mode |
| SmbSpelled.TakenRequestSpelled | src/smb_share_write.rs:101-138 | the same of a request that was taken, mode by mode, with the word each mode is written as |
| SmbSpelled.PrivateUsersSpelled | src/smb_share_write.rs:164-169 | a private share admits its readers and writers, each once, in byte order |
| SmbSpelled.SharesSpelled | src/smb_shares.rs:97-110 | every section but `global`, `homes` and `printers` is listed, in order, with the account guests run as |
| SmbMode.KeptKeySetsNoAccess | src/smb_share_write.rs:180-210 | a key the rewriter keeps sets nothing the access mode depends on, and makes connections guests' only if it is `only guest` |
| SmbMode.DroppedKeySetsOnlyAccess | src/smb_share_write.rs:180-210 | a key the rewriter drops sets nothing else, and is not `only guest` |
| SmbMode.UsersReadBack | src/smb_shares.rs:60-66 | a printed user list reads back as itself |
| SmbMode.AccessLinesClean | src/smb_share_write.rs:149-177 | every line inserted for a valid request is one the next rewrite drops, and neither a header nor continued |
| SmbMode.ModeIffGuestsCannotWrite | src/smb_shares.rs:33-53 | the requested flags read as the requested mode if and only if not secure with the guest account a writer |
| SmbMode.RequestedAccessIsParsed | src/smb_share_write.rs:149-253 | in a regular conf, after a rewrite, each matching section has its name, path and guest account as before and exactly the requested flags and user lists, but for those that lines continuing a kept line set, and `guest only` as the kept lines say; every other share parses exactly as before |
| SmbMode.AccessIffStaleAgrees | src/smb_share_write.rs:149-253 | a rewritten share has the requested access if and only if what the continuing lines kept in its section say of it is what is requested |
| SmbMode.UncontinuedConf | src/smb_share_write.rs:211-214 | a conf without continued lines is regular, and nothing but its `only guest` lines outlives a rewrite |
| SmbMode.RequestedModeIsParsedMode | src/smb_share_write.rs:149-253 | if it agrees, each matching share reads back with the requested write list, valid users and, exactly unless guests write, mode |
| SmbMode.GuestOnlyIffStaleLine | src/smb_share_write.rs:180-253 | a rewritten share is guest-only if and only if the last line kept in its section that the reader takes for it says yes: an `only guest` line, or one that continues a kept line |
| SmbFailures.OnlyGuestSurvives | src/smb_share_write.rs:180-203 | such a line, after any valid request |
| SmbFailures.GuestWriterIsNotSecure | src/smb_shares.rs:33-53 | a valid secure request after which the share is not secure |
| SmbFailures.CarriageReturnsGo | src/smb_share_write.rs:215-253 | a conf whose second rewrite differs from the first, for any valid request |
| SmbFailures.ContinuedLineSurvives | src/smb_share_write.rs:211-249 | a conf whose share reads as public after any valid secure request, by a line that continues a kept one |
| SmbFailures.ContinuedHeaderLoses | src/smb_share_write.rs:220-230 | a conf in which another share, whose header continues a line, is no longer public after any valid request |
| SmbFailures.ContinuedPathGoes | src/smb_share_write.rs:220-230 | a conf in which the share has lost its path, which continued an access line, after any valid request |
| ShareCfg.WriteCfgKeys | src/exports.rs:168-193 | the loops replace named keys in place and append the missing ones |
| ShareCfg.LineKeySpelled | src/exports.rs:171-176 | a cfg line sets what stands before its first `=`, white space around it aside, unless `#` opens it |
| ShareCfg.ParseIni | src/share_cache.rs:74-86 | the reader's loop computes the sections line by line |
| ShareCfg.CfgReadsBack | src/exports.rs:168-193 | a section-free cfg reads back with just the updates changed |
| SmbApply.SmbFiles.ApplyIn | src/smb_share_write.rs:266-307 | success rewrites both files and keeps their modes; any failure whose restoring writes succeed leaves both as before, and says truly whether they were restored |
| SmbApply.AppliedCfgReadsBack | src/smb_share_write.rs:140-146 | after success the reader finds the three requested keys and every other key unchanged |
| Autostart.SentStates | src/unit_provider.rs:395-410 | an enabled entry is expected at the rank of the enabled entries before it |
| Autostart.ReadStates | src/unit_provider.rs:412-429 | a container is read at its place among the enabled ones sorted by order |
| Autostart.VerifyAutostart | src/unit_provider.rs:437-474 | the verdict: the target first, then exactly the others that did not land or appeared |
| AutostartLaws.EntriesOkIffNotEmpty | src/unit_provider.rs:577-616 | for unique ids the entries are refused only for an empty list; the check against dropping others never fires |
| AutostartLaws.RefusedIff | src/unit_provider.rs:577-616 | for any list, the entries are refused exactly if it is empty or the change switches off an id that several enabled containers have |
| AutostartLaws.EntriesInOrder | src/unit_provider.rs:577-592 | the entries come by reported order, those that report none last, and those no order tells apart as the server listed them |
| AutostartLaws.StartOrderInOrder | src/unit_provider.rs:412-414 | so do the enabled containers read back, among which a rank is a place |
| AutostartLaws.StoredIsApplied | src/unit_provider.rs:437-474 | if the server stores exactly the entries, the verdict is applied |
| AutostartLaws.AppliedIffAllAsSent | src/unit_provider.rs:437-474 | applied if and only if no container appeared or vanished and each one landed as sent |
| AutostartLaws.AllAsSentMeans | src/unit_provider.rs:431-435 | landed means the flag, a given wait and a reported rank are as sent |
| AutostartProtocol.WriteIsSingleEdit | src/unit_provider.rs:476-503 | a write planned from a list with the same snapshot changes the target and nothing else of the current one |
| AutostartProtocol.StepKeeps | src/unit_provider.rs:476-503 | every step of every writer, and every change by others that is not between a re-read and its update, keeps the invariant |
| AutostartProtocol.WritersAreSerializable | src/unit_provider.rs:476-503 | in every interleaving of writers and outsiders the list is what their deeds give, one after another, and each commit is a single edit of the list current at that moment |
| AutostartProtocol.WriterFindsItsChange | src/unit_provider.rs:476-503 | the change of a writer still holding the lock was stored as sent when it committed, only outsiders changed the list since, and if they did not, it verifies as applied |
| AutostartProtocol.UntargetedKept | src/unit_provider.rs:561-616 | flag and wait of a container survive any run in which no commit targets it and no outsider changes it |
| AutostartProtocol.OrderSurvives | src/unit_provider.rs:561-616 | so does the relative order of enabled containers with distinct orders that no outsider reorders |
| VmXml.Strip | src/vm_xml.rs:60-83 | the attributes it keeps, and a hit exactly if one went |
| VmXml.Redact | src/vm_xml.rs:100-170 | the event loop with stack and skip counter computes the stream redaction |
| VmXmlShown.RedactedShows | src/vm_xml.rs:37-170 | of any stream of events, well nested or not: no `passwd`, `password`, `query` of a source, `value` below a command line, other attribute than `type` of `auth` and `secret`, value with `password=`, `token=` or `secret=` in any case, text of a cookie or OEM string, or part of `metadata` is in the output, and nothing else is missing from it; it fails exactly if the stream ends in `metadata` |
| VmXmlTree.StreamingIsTreeRedaction | src/vm_xml.rs:100-170 | on every tree's events the loop yields the flattening of the recursive redaction, and reports exactly whether a secret was there |
| VmXmlTree.RedactedIsClean | src/vm_xml.rs:86-170 | no secret position is left |
| VmXmlTree.UnchangedIffClean | src/vm_xml.rs:86-170 | a tree is unchanged if and only if it holds no secret |
| VmXmlTree.RedactTwice | src/vm_xml.rs:100-170 | redacting the output again changes and reports nothing |
| VmXmlTree.ReadForest | src/vm_xml.rs:100-170 | every well-nested stream is the flattening of a forest |
| VmXmlTree.WellNestedRedaction | src/vm_xml.rs:100-170 | so all this holds of every well-nested stream, and the output is well nested |
| NfsExports.LiveGroups | src/exports.rs:340-365 | the first line that exports the path to someone, with its groups |
| NfsExports.CheckLive | src/exports.rs:367-400 | the loop reports exactly the specified problems |
| NfsExportsLaws.EmptyReportIffExact | src/exports.rs:367-400 | an empty report if and only if the live line has exactly the wanted clients, each with exactly the wanted options, as multisets |
| NfsExportsLaws.ExpectedSpelled | src/exports.rs:390-396 | a default is no surprise if it is an fsid, `async` or `no_subtree_check` |
| NfsExportsLaws.DefaultsToken | src/exports.rs:340-363 | a token that starts with `-` gives its non-empty parts as defaults and no client |
| NfsExportsLaws.ClientReadsBack | src/exports.rs:78-91 | one printed client is read as itself with its options, or, flagged or without options, not at all |
| NfsExportsLaws.PrintedEntryChecksIff | src/exports.rs:78-91 | the line printed for a validated entry is reported fine if and only if it has an option and no client starts with `-` |
| NfsExportsLaws.ValidatesIff | src/exports.rs:195-233 | an entry validates exactly if its path is printable without quotes and backslashes, it has a client, and clients, options and fsid are words of the allowed characters |
| NfsExportsLaws.FlaggedClientIsReported | src/exports.rs:195-233 | an entry with a client that starts with `-` validates and is reported once written |
| NfsExportsLaws.NoOptionIsReported | src/exports.rs:78-91 | an entry without options validates and is reported once written |
| SecretMask.UrlPasswordRanges | src/docker_adopt/redact.rs:76-95 | the URL scanner ends with the specified ranges |
| SecretMask.KvPasswordRanges | src/docker_adopt/redact.rs:99-116 | the key-value scanner ends with the specified ranges |
| SecretMask.Merge | src/docker_adopt/redact.rs:119-131 | sorted ranges become separated ones covering the same positions |
| SecretMask.SecretRanges | src/docker_adopt/redact.rs:119-131 | in bounds, sorted, strictly separated, covering exactly the union of both scanners' ranges |
| SecretMask.MaskInline | src/docker_adopt/redact.rs:138-148 | the splice replaces exactly those ranges |
| SecretMaskLaws.UrlRangesExact | src/docker_adopt/redact.rs:76-95 | a range is found if and only if it is the password of an authority the scan looks at, by the last-`@` rule |
| SecretMaskLaws.EveryUrlIsLookedAt | src/docker_adopt/redact.rs:76-95 | every `://` is looked at or lies inside an authority that is |
| SecretMaskLaws.KvRangesExact | src/docker_adopt/redact.rs:99-116 | the key-value ranges are exactly the non-empty values of all occurrences, in any letter case |
| SecretMaskLaws.UrlPasswordsSpelled | src/docker_adopt/redact.rs:76-95 | a URL password is from the first `:` to the last `@` of an authority that ends at the first `/`, `?`, `#` or white space |
| SecretMaskLaws.EveryUrlSpelled | src/docker_adopt/redact.rs:76-95 | every `://` begins such an authority or lies inside one |
| SecretMaskLaws.KeyValuesSpelled | src/docker_adopt/redact.rs:99-116 | a key's value is what follows `password=` or `pwd=`, in any case, up to the next `;` or white space |
| SecretMaskLaws.SecretRangesUnique | src/docker_adopt/redact.rs:119-131 | only one list of ranges is sorted, separated and covers the secrets |
| SecretMaskLaws.MaskingReplacesOnlySecrets | src/docker_adopt/redact.rs:138-148 | the text is gaps woven with secrets, and the output the same gaps woven with their tokens |

## Left out

- SagaUndo.FailureIsUndone: others act between steps, not between the compensations; what they did themselves (data they wrote, a container they started) is not undone.
- SagaWrites.NoLostWrite: others start, stop and write between steps, but not between the stopped check and the rebuild, nor inside one comparison and the removal it guards, where the code holds no lock.
- SagaWrites.NeverRanSinceCopied: start times are read off a clock that never repeats.
- SagaApply.Runner.Perform: the checks of the root side on drivers, users and overlapping binds are part of a step's answer, not of the host; networks, stack directories, icon caches and the container's own specification have no state here.
- SagaRollback.CompensationSucceedsIff: that the template a run writes carries the marker is assumed of its rendering, an input.
- Plans.PlanAdopt: the rendered template, the target specification and its mounts, the compose leftovers and the blockers not about a volume's copy are inputs or left out.
- Conversions.PlanConversions: lower-casing is ASCII, since a name with any other letter is a blocker anyway; messages are reduced to their kind.
- Stages.StageIsolation: one `<appdata>/<name>` directory; an empty one created on the way may remain. A stage is filled through its descriptor, which the model identifies with the stage that passes the pair's check.
- Templates.NestedRunsRestore: the writes and restores of the nested runs go through; what a failing one leaves is stated by FailedWriteKeepsTemplate and the methods. The check of a template's body is a parameter.
- SmbMode.RequestedAccessIsParsed: for a regular conf: where a continuing line is a header to the reader in or of a section to rewrite, or is dropped and sets the path or the guest account, what happens to that share or the next is not stated in general. A section named global, homes or printers is no share, so nothing is stated of one.
- SmbApply.SmbFiles.ApplyIn: a file is replaced as a whole or not at all, and a failing replacement has no effect.
- SmbRewrite.RewriteSection: of the characters outside ASCII only the Kelvin sign lower-cases to a single ASCII letter, so it alone is folded in keys.
- Autostart.VerifyAutostart: the ids of others changed come as a set; the source sorts their display names.
- AutostartProtocol.WritersAreSerializable: no timeout fires, and nobody outside the process writes between the re-read and the update, where the code cannot notice.
- VmXml.Redact: starts from parsed events; XML lexing and its errors, entity decoding and character references (passed through like other content) are not modelled.
- SecretMask.MaskInline: positions count characters, not bytes, and the token of a secret is a parameter.
- HostAutostart.AutostartReadsBack: the file is text; bytes that are no UTF-8 are not modelled.
- NfsFsid.PlanFsids: nothing is assumed of the hash; the secret behind the server key is an input.
- The digests, the stage-name hash, tokens and nonces are parameters; no injectivity is assumed of any of them.
- The GraphQL client, the topology, UPS and diagnostics tools, and the checks on disks, pools and virtual machines: mostly one branch over one file read.
- Masking of template XML and of extra docker parameters, and the redactor that masks known values in messages.
- Authorization of callers, the wire format between the daemon and the root helper, and message texts.
