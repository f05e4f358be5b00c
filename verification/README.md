# MicroCeph: a verified model of its protocols

MicroCeph turns a set of machines into a Ceph cluster. Most of it drives external commands; the parts modelled here
are the ones that must stay right when those commands fail, when the daemon dies between two writes, and when
several members act at once. Commands, files and database rows are explicit state; every external step may succeed or
fail, and a step that reports failure may have taken effect.

| file | subject |
|---|---|
| `RgwPublication.dfy` | the write-ahead journal around `radosgw.conf`, the TLS generations and the running gateway |
| `RgwConf.dfy`, `RgwRefinement.dfy` | the text of `radosgw.conf`, and how it refines the records of the protocol |
| `AuxPlanner.dfy` | the greedy WAL/DB partition planner |
| `AuxOwnership.dfy` | creating, recording and cleaning up partitions on shared carriers |
| `PlacementLock.dfy`, `Reconcile.dfy` | the cluster-wide lease lock and the control-service pass under it |
| `MonQuorum.dfy`, `Teardown.dfy` | leaving the monitor map with a quorum; deleting a service in phases |
| `Bootstrap.dfy` | the compare-and-set lifecycle of a Ceph-only bootstrap |
| `OsdRemoval.dfy`, `RackDomain.dfy` | removing an OSD against late boots; the three-zone failure domain |
| `SyncVerdict.dfy` | the multisite sync verdict and the per-shard meaning behind its counter |
| `Common.dfy` | string order, options, removal from a sequence |

`dafny verify dfyconfig.toml` checks everything.

## How to read it

Code that changes state step by step is a class whose methods change the same state in the same order; pure code is
functions. An outcome the source does not decide is `*`, so a postcondition holds for every outcome. A flag `faults`
says whether commands may fail at all; contracts say what is kept whatever fails, and what is achieved without faults.
`undoFaults` says the same of the commands that undo a failed step. Where a property is about every moment of a run,
each write goes through one method (`Append`, `Commit`, `Emit`) that demands the invariant and appends to a trace, and
the run theorem speaks about every entry of the trace; a crash resumes from any entry. Races between members are a
step function `Exec` and lemmas over every sequence of steps.

Main results:

- **RGW crash safety.** At every write boundary of every run of enable, update, rotation (immediate or deferred),
  recovery, rollback and finish, with crashes anywhere, the pair named by the live configuration is complete, so is
  the pair named by the journal's previous configuration. As long as services are restarted behind its back only
  between operations, an active gateway without a journal runs exactly the frontend on disk; with such restarts
  anywhere, the two ways to lose that are named exactly (`RgwPublication.Run`). A failed operation leaves a journal or
  the old frontend line (`RgwPublication.Gateway.Apply`).
- **Ownership of partitions.** Over any sequence of adds and removals failing or dying anywhere, a partition recorded
  by UUID, with its device link, stays in its carrier's table until its own OSD is removed (`AuxOwnership.Run`). No
  add touches a disk that backs OSD data, and one without faults on suitable disks adds every OSD
  (`AuxOwnership.Member.AddDisks`).
- **The planner** is optimal, balanced, independent of listing order, and predicts the slots the partitioner will
  really hand out; what it does is also stated over the disks alone (`AuxPlanner.PlanAuxiliaryPartitions`).
- **The placement lock** excludes in every run exactly when no two clocks differ by more than four and a half minutes
  (`PlacementLock.ExclusiveIffWithinMargin`).
- **OSD removal** issues nothing in the wrong order under any failures and late boots, and survives one late boot
  (`OsdRemoval.Removal.RemoveOsd`); the purge succeeds under every schedule exactly with fewer than two
  (`OsdRemoval.PurgeSucceedsIff`).

Findings, each with a concrete input and the exact condition:

- Carrier resets consult device links and never manifests, so a manifest left without its link can lose its
  partition (`AuxOwnership.LinklessRecordCanBeReset`, `AuxOwnership.ResetsKeepRecordsIff`). An add that dies between
  the two leaves one.
- Partition sizes are summed in 64 bits, and a sum that wraps makes a full disk look free
  (`AuxPlanner.WrappedSizesLookFree`, `AuxPlanner.RemainingIsFreeIff`).
- A rack can lose its last OSD unnoticed when the OSD's host is untagged or tagged with another zone
  (`RackDomain.UntaggedHostLosesAZone`, `RackDomain.AllowedRemovalBreaksIff`).
- A repeated shard key passes validation and can hide a missing shard (`SyncVerdict.RepeatedKeyReadsAsCaughtUp`,
  `SyncVerdict.CaughtUpIff`).
- `--force` lets a second set of bootstrap steps run beside a live one (`Bootstrap.ForceAdmitsTwoInFlight`), exactly
  until the live one has written its fsid and keyring rows (`Bootstrap.ForceJoinsIff`). The unique config key still
  admits only one recorded fsid and one raised cluster, where the documentation warns of diverging ones.
- A gateway restart that nobody asked for can leave the gateway on a frontend that is not the one on disk, without a
  journal to show it. It hits between a publication and an undo that leaves the service alone
  (`RgwPublication.RestartDuringUndoLosesBaseline`, `RgwPublication.UndoKeepsBaselineIff`), or it brings up a gateway
  that was found down before the new frontend is published, so that the start that follows does nothing
  (`RgwPublication.SkippedStartLosesBaseline`, `RgwPublication.FinishAfterStartKeepsBaselineIff`).
  `RgwPublication.SoundLosesExactly` says that over whole runs there is no third way.
- Two outstanding boots can make a purge report failure although no command failed (`OsdRemoval.BootsDefeatRounds`),
  and fewer cannot (`OsdRemoval.PurgeSucceedsIff`). One is enough to bring the id back after a reported success
  (`OsdRemoval.OneBootReturns`), and none cannot (`OsdRemoval.PurgeIsFinalIff`).
- A rollback puts the first frontend line in place of all of them, and a file without a recognised frontend line is
  replaced by an emptied rendered file; such files do not come back as they were
  (`RgwConf.IndentedFrontendIsNotCanonical`, `RgwConf.UnrecognisedFrontendIsLost`), and only such files
  (`RgwConf.RollbackLeavesOnlyRefreshesIff`).

## Model

| member | source | states |
|---|---|---|
| `RgwPublication.Run` | microceph/ceph/rgw.go:200-660 | every state of every run, crashes included, has complete pairs for the live and the journalled configuration; with restarts only between operations the baseline is always known; with restarts anywhere its first loss is exactly an undo that leaves the service alone while the gateway runs something else, or the finish of an apply whose start met such a gateway |
| `RgwPublication.Gateway.Commit` | microceph/ceph/rgw.go:168-198 | each durable change keeps crash safety, journal meaning and a rollback target that has run before this point of the run |
| `RgwPublication.Gateway.StageGeneration` | microceph/ceph/rgw.go:200-226 | writes the pair without damaging any complete pair; success means the pair is complete |
| `RgwPublication.Gateway.WriteJournal` | microceph/ceph/rgw.go:257-264 | the journal records the current configuration; one that promises an active gateway names a frontend it has run |
| `RgwPublication.Gateway.Recover` | microceph/ceph/rgw.go:310-361 | success leaves no journal, the same frontend on disk and the same files, and that frontend loaded; a failure whose undo works is really undone; without faults or outside restarts it succeeds exactly when nothing is pending or the pending frontend is usable |
| `RgwPublication.Gateway.RecoverPending` | microceph/ceph/rgw.go:319-361 | the pending frontend is brought up and the journal dropped, or, when the undo works, the frontend the journal names is back |
| `RgwPublication.Gateway.Restore` | microceph/ceph/rgw.go:372-443 | success brings back the previous frontend line (or no file), the previous service state, and removes the journal; the journal is never gone before the frontend is back; with working commands the frontend is always back and only the pair in use is left |
| `RgwPublication.Gateway.UndoJournal` | microceph/ceph/rgw.go:425-430 | the journal removal that ends an undo loses the baseline exactly when the gateway is stranded |
| `RgwPublication.UndoKeepsBaselineIff` | microceph/ceph/rgw.go:372-443 | on every host, an undo that leaves the service alone keeps the baseline if and only if the gateway is inactive or runs the previous frontend |
| `RgwPublication.SoundLosesExactly` | microceph/ceph/rgw.go:372-443 | in every recorded history the first state without a known baseline is left by a stranding undo or by a finish after a missed start, and each of the two leaves one |
| `RgwPublication.MissedIsHistory` | microceph/ceph/rgw.go:636-643 | a start counts as missed exactly when an earlier start met an active gateway that ran something else and neither the frontend on disk nor the loaded one has changed since |
| `RgwPublication.FinishAfterStartKeepsBaselineIff` | microceph/ceph/rgw.go:636-643 | on every host, start and finish keep the baseline if and only if the start did not meet an active gateway that runs something else |
| `RgwPublication.SkippedStartLosesBaseline` | microceph/ceph/rgw.go:543-643 | a witness: a gateway that comes up on the old frontend between the check and the publication is never reloaded |
| `RgwPublication.Gateway.Start` | microceph/ceph/rgw.go:636-643 | brings up a stopped gateway on the file, which is the start the exact conditions are about; leaves one that is up as it is, and marks the start as missed exactly if that one runs something else |
| `RgwPublication.Gateway.Restart` | microceph/ceph/rgw.go:329-335 | a gateway that comes up has loaded the file |
| `RgwPublication.Gateway.RestoreConf` | microceph/ceph/rgw.go:376-401 | the file becomes the old frontend among the newest other lines, or disappears on a first enable |
| `RgwPublication.Gateway.RestoreService` | microceph/ceph/rgw.go:401-424 | a previously active gateway has loaded the restored file, an inactive one is stopped |
| `RgwPublication.Gateway.Prune` | microceph/ceph/rgw.go:453-495 | keeps the pair in use complete even when a removal stops half way; a clean run leaves no generation but the one in use |
| `RgwPublication.Gateway.Finish` | microceph/ceph/rgw.go:511-518 | journal removal first, pruning only after it worked; loses the baseline exactly after a missed start with the gateway still up; a failure changes nothing |
| `RgwPublication.Gateway.Publish` | microceph/ceph/rgw.go:576-618 | pair, then journal, then configuration: on any failure the undo is still possible, and no change leaves the host as it was |
| `RgwPublication.Gateway.Activate` | microceph/ceph/rgw.go:634-660 | starts a stopped gateway, restarts a running one, succeeds only if the probe passed after the last service command, keeps the undo possible; a failed start or readiness check really puts the previous frontend back when the undo works |
| `RgwPublication.Gateway.Apply` | microceph/ceph/rgw.go:537-660 | success puts the desired frontend on disk and, with restart, in a probed gateway unless its start was missed, and returns an undo that still works; failure leaves a journal or the old frontend line on disk, and the old frontend when the undo works; without faults it succeeds exactly when nothing unusable is pending |
| `RgwPublication.Gateway.ChoosePair` | microceph/ceph/services_placement_rgw.go:102-131 | none for a plain gateway, the supplied pair, or exactly the pair the configuration named before the call; a reuse without a complete pair fails and never falls back to plaintext |
| `RgwPublication.Gateway.Enable` | microceph/ceph/services_placement_rgw.go:102-198 | success means exactly the frontend asked for is on disk (plain, with the supplied pair, or with the pair that was in use before), in the database record and, if this call missed no start and the baseline is not lost, loaded; the journal is gone, or names that configuration, or, when rewriting it failed too, the previous one; failure leaves the record alone and a journal or the old frontend line; without faults it succeeds exactly when nothing unusable is pending and a reuse has a pair to reuse, and the gateway has passed its probe |
| `RgwPublication.Gateway.Confirm` | microceph/ceph/services_placement_rgw.go:144-185 | records exactly the applied frontend, and only for a gateway found active; otherwise the record stays and the apply is undone, really so when the undo works |
| `RgwPublication.Gateway.UpdateCertificates` | microceph/ceph/rgw.go:804-840 | success puts the frontend with the new pair on disk; with restart no journal is left and, if this call missed no start and the baseline is not lost, the gateway runs it; failure leaves a journal or the old frontend line; without faults it succeeds exactly if TLS is configured and the gateway is active or a usable frontend is pending |
| `RgwPublication.RestartDuringUndoLosesBaseline` | microceph/ceph/rgw.go:308-325 | a witness: the same undo keeps the baseline without a restart in between and loses it with one |
| `RgwConf.SplitJoin` | microceph/ceph/start.go:280-314 | joining lines and splitting the text gives the lines back |
| `RgwConf.JoinSplit` | microceph/ceph/start.go:280-314 | splitting and joining any text gives the text back |
| `RgwConf.FixConfigLine` | microceph/ceph/start.go:280-314 | rewrites exactly the matching lines, and reports a change exactly when there is one |
| `RgwConf.ReadFrontendLine` | microceph/ceph/rgw.go:85-94 | the loop returns the first frontend line, trimmed |
| `RgwConf.FrontendAfterEdit` | microceph/ceph/rgw.go:85-104 | writing a frontend line and reading the file gives that line, or none if it was emptied |
| `RgwConf.EditsCommute` | microceph/ceph/start.go:200-258 | edits of different owners can run in either order |
| `RgwConf.RefreshApartFromFront` | microceph/ceph/start.go:200-258 | the refresh edits and any frontend edit have different owners |
| `RgwConf.MonCommutesWithRun` | microceph/ceph/start.go:200-258 | the monitor and run-directory edits commute on every file for all values |
| `RgwConf.EditTwice` | microceph/ceph/rgw.go:96-104 | a later frontend edit replaces an earlier one entirely |
| `RgwConf.FrontCommutesWithRefresh` | microceph/ceph/rgw.go:389-397 | a frontend edit commutes with any sequence of refreshes |
| `RgwConf.RolledBack` | microceph/ceph/rgw.go:372-400 | for every file, publication, any refreshes and rollback give the refreshes of the file with every frontend line set to the first one, or of an emptied rendered file if it had none |
| `RgwConf.RollbackLeavesOnlyRefreshesIff` | microceph/ceph/rgw.go:372-400 | every file comes back from all of these unchanged but for the refreshes if and only if its frontend lines are trimmed and identical, or it has none and already is the emptied rendered file |
| `RgwConf.FrontendFileComesBackIff` | microceph/ceph/rgw.go:372-400 | for a file with a frontend the same holds for each sequence of refreshes on its own |
| `RgwConf.UnrecognisedFrontendIsLost` | microceph/ceph/rgw.go:609-616 | a witness: a file whose frontend line is not recognised loses its text |
| `RgwConf.IndentedFrontendIsNotCanonical` | microceph/ceph/rgw.go:85-104 | a witness: an indented frontend line is such a file |
| `RgwConf.ConfTlsPaths` | microceph/ceph/rgw.go:106-119 | the loop returns the last certificate and key values of the line |
| `RgwConf.ConfPorts` | microceph/ceph/rgw.go:121-139 | the loop returns the last port values, or an error at the first bad number |
| `RgwConf.ItoaRoundTrip` | microceph/ceph/rgw.go:121-139 | a printed port reads back as the same number |
| `RgwConf.RenderedFrontendParses` | microceph/ceph/rgw.go:284-306 | rendering valid settings and parsing them gives the same ports, TLS flag and paths |
| `RgwConf.ParsedIsValid` | microceph/ceph/rgw.go:284-306 | a line that parses is a beast frontend with two distinct ports in range, TLS exactly with both paths |
| `RgwConf.RenderedFileHasFrontend` | microceph/ceph/configwriter.go:109-125 | the frontend line found in a rendered file is the rendered one, whatever the monitors and run directory |
| `RgwRefinement.EditKeepsOtherLines` | microceph/ceph/start.go:280-314 | an edit leaves every other owner's line as it was |
| `RgwRefinement.FrontEditRefines` | microceph/ceph/rgw.go:96-104 | the text edit is the protocol's record update |
| `RgwRefinement.RollbackRefines` | microceph/ceph/rgw.go:386-397 | the text written by a rollback over any file stands for the record the protocol restores |
| `RgwRefinement.PublicationRefines` | microceph/ceph/rgw.go:609-616 | the text written by a publication over any file stands for the desired frontend, among the current lines if there was a frontend before |
| `RgwRefinement.RefreshRefines` | microceph/ceph/start.go:200-258 | a refresh never changes the frontend the protocol sees |
| `RgwRefinement.RefreshWrites` | microceph/ceph/start.go:200-258 | a refresh writes the monitors or the run directory it was given, and not the other |
| `AuxPlanner.NextPartitionNumber` | microceph/ceph/osd.go:1638-1652 | the result is the least vacant slot from 1 |
| `AuxPlanner.DiskUsedBytes` | microceph/ceph/osd.go:1627-1636 | the 64-bit sum of partition sizes, at most the disk size |
| `AuxPlanner.SumSizesAdds` | microceph/ceph/osd.go:1627-1636 | the sum of two lists of partitions is the sum of their sums |
| `AuxPlanner.RemainingIsFreeIff` | microceph/ceph/osd_waldb.go:142-161 | the planner starts from the free bytes of a disk exactly if it is reset, empty of space, or the sizes of its partitions add up within 64 bits |
| `AuxPlanner.WrappedSizesLookFree` | microceph/ceph/osd.go:1627-1636 | a witness: a disk whose partition sizes wrap looks empty |
| `AuxPlanner.PlanAuxiliaryPartitions` | microceph/ceph/osd_waldb.go:133-209 | the nested loops compute the recursive plan; over the disks themselves, every row is the next least free slot of the disk with the fewest partitions that has room, its bytes fit beside what the disk holds, and the plan fails exactly when the whole partitions that fit the free bytes are fewer than the OSDs |
| `AuxPlanner.PlanIsGood` | microceph/ceph/osd_waldb.go:164-206 | every row: which disk, which slot, which flags, in terms of the disks and the earlier rows alone |
| `AuxPlanner.BestIsBest` | microceph/ceph/osd_waldb.go:168-178 | no carrier with room beats the chosen one in count, then path |
| `AuxPlanner.PlannerIsOptimal` | microceph/ceph/osd_waldb.go:164-206 | the planner fails exactly when the carriers' summed whole-partition capacity is below the number of OSDs |
| `AuxPlanner.InsufficientIff` | microceph/ceph/osd_waldb.go:164-206 | failure exactly when the free bytes of the disks hold fewer whole partitions than OSDs |
| `AuxPlanner.FailureMeansNoAssignment` | microceph/ceph/osd_waldb.go:164-206 | where the planner fails, no assignment of the OSDs to carriers whatever fits |
| `AuxPlanner.PlannedBytesFit` | microceph/ceph/osd_waldb.go:189-191 | planned bytes and counts are conserved per carrier and never exceed what remained |
| `AuxPlanner.PlannerIsBalanced` | microceph/ceph/osd_waldb.go:164-206 | a carrier that got a partition is at most one ahead of any that still has room |
| `AuxPlanner.FlagsOnFirstRowOnly` | microceph/ceph/osd_waldb.go:180-206 | a row resets or labels exactly when it is the first of a reset, respectively empty, carrier |
| `AuxPlanner.PlanExecutes` | microceph/ceph/osd_waldb.go:979-1041 | run in order on matching disks every row passes the slot check, survives all later rows, and nothing on an unreset carrier is lost |
| `AuxPlanner.InventoryAgrees` | microceph/ceph/osd_waldb.go:138-161 | the planner's starting view agrees with the disk it was read from |
| `AuxPlanner.PlanIgnoresListingOrder` | microceph/ceph/osd_waldb.go:164-206 | the plan is the same for every order of the same carriers |
| `AuxOwnership.Run` | microceph/ceph/osd_waldb.go:808-1193 | a record with its device link survives every run of adds and removals, failing or dying anywhere, that does not remove its own OSD, and the partition with it |
| `AuxOwnership.Member.DeletePartition` | microceph/ceph/osd_waldb.go:808-820 | erases at most the named slot, on success exactly it |
| `AuxOwnership.Member.CleanupDevice` | microceph/ceph/osd_waldb.go:822-896 | deletes only a partition whose UUID matches the record and touches no other disk; success on an attached carrier means it is gone, and without faults it succeeds for every record with a UUID |
| `AuxOwnership.Member.PrepareCarrier` | microceph/ceph/osd_waldb.go:979-1041 | touches only this carrier, nothing at all on it without a reset, and ends ready only if the planned slot is the least free one; without faults it is ready exactly when the planner's partitioner accepts the row |
| `AuxOwnership.Member.CreatePlanned` | microceph/ceph/osd_waldb.go:995-1100 | siblings on an unreset carrier are unchanged under every failure; at most the one new partition appears; a clean rollback leaves the slot free; without faults a row the partitioner accepts is created |
| `AuxOwnership.Member.Generate` | microceph/ceph/osd_waldb.go:1130-1168 | both partitions of a row or neither: what was made before a failure is deleted again when the undo works |
| `AuxOwnership.Member.AddOsd` | microceph/ceph/osd_waldb.go:1122-1190 | one plan row, failing or dying anywhere, keeps every live record with its partition and the directories of earlier OSDs; success leaves the planned partitions recorded and live; a failure whose undo works leaves no directory and no partition of its own |
| `AuxOwnership.Member.Install` | microceph/ceph/osd.go:1199-1310 | manifest, then links, then the rest, with a revert that may remove only part of the directory: no earlier record is endangered; success leaves the manifest as given with every entry live; a failure whose undo works leaves the directories as they were and the partitions gone |
| `AuxOwnership.Member.WriteManifest` | microceph/ceph/osd.go:1275-1281 | the manifest alone makes no record live and keeps all records distinct |
| `AuxOwnership.Member.Revert` | microceph/ceph/osd.go:1123-1134 | a failed add drops its own directory and its own partitions, all of them when the undo works, and nothing of others |
| `AuxOwnership.Member.ExecutePlan` | microceph/ceph/osd_waldb.go:1115-1193 | a whole plan keeps every earlier record and touches no disk outside the plan; no row resets a carrier that an earlier row recorded on; the first rows up to the first failure become OSDs with exactly their planned partitions; without faults a feasible plan is carried out to the end |
| `AuxOwnership.Member.SelectCarriers` | microceph/ceph/osd.go:1491-1625 | never keeps or resets a disk that backs OSD data; keeps a blank disk exactly if unused and pristine or wiped, another one exactly if it carries partitions of ours or is wiped; resets exactly what is wiped and carries none of ours, so nothing without a wipe request |
| `AuxOwnership.KeptIff` | microceph/ceph/osd.go:1491-1532 | a disk is kept exactly under the conditions in terms of data, links, wipe and pristine |
| `AuxOwnership.ResetIff` | microceph/ceph/osd.go:1491-1532 | a path is reset exactly if a wipe was asked for and it is matched, unlinked and backs no data |
| `AuxOwnership.Member.AddDisks` | microceph/ceph/osd_waldb.go:211-332 | selection, overlap refusal, planning and execution together keep every record; no disk that backs OSD data or is about to is touched; a refusal changes nothing; the OSDs added have exactly the partitions of a good plan; without faults, with room, no overlap and a true inventory every OSD is added |
| `AuxOwnership.Member.CleanupManifest` | microceph/ceph/osd_waldb.go:913-947 | between phases every partition still there is still listed; success leaves none, and without faults it succeeds for every manifest with UUIDs |
| `AuxOwnership.PlanResetsFirst` | microceph/ceph/osd_waldb.go:133-209 | planned resets come first on their carrier and only where asked |
| `AuxOwnership.UnlinkedIsUnrecorded` | microceph/ceph/osd_waldb.go:457-499 | a carrier without an OSD link has no live record |
| `AuxOwnership.ResetsKeepRecordsIff` | microceph/ceph/osd.go:1491-1532 | permitted resets keep every record exactly when each record's carrier is named by a link |
| `AuxOwnership.LinklessRecordCanBeReset` | microceph/ceph/osd.go:1491-1532 | a record without a link can be wiped out by a permitted reset |
| `PlacementLock.PolicyRow.TryAcquire` | microceph/database/placement_policy_extras.go:96-134 | takes the lock exactly when it is free or stale and then holds its own token, and otherwise leaves it |
| `PlacementLock.PolicyRow.Release` | microceph/database/placement_policy_extras.go:136-147 | the row becomes empty exactly when the token still holds it, and is left alone otherwise |
| `PlacementLock.ReleasedLockIsFree` | microceph/database/placement_policy_extras.go:96-147 | after a finished member's release the next attempt gets in at once, whatever its token |
| `PlacementLock.LateReleaseKeepsLock` | microceph/database/placement_policy_extras.go:136-147 | a release after a reclaim leaves the reclaimer's lock alone |
| `PlacementLock.AcquiresIff` | microceph/database/placement_policy_extras.go:96-134 | an attempt gets in exactly if the row is empty or older than fifteen minutes |
| `PlacementLock.StoresTheRequest` | microceph/api/placement.go:112-195 | what is stored is what was put, or nothing after a clear |
| `PlacementLock.Race` | microceph/api/placement.go:112-195 | members racing through the row's conditional updates produce exactly the runs the lemmas are about |
| `PlacementLock.NobodyInsideAtReclaim` | microceph/ceph/placement.go:60-70 | whoever finds the row free or stale finds nobody at work |
| `PlacementLock.StepKeepsInvariant` | microceph/api/placement.go:112-195 | every step of every member keeps the lock discipline, late releases and crashes included |
| `PlacementLock.MutualExclusion` | microceph/ceph/placement.go:103-147 | in every run at most one apply or clear is inside, and the stored policy is its own |
| `PlacementLock.MarginIsTight` | microceph/ceph/placement.go:60-70 | with more clock skew than lease minus work, two applies can be inside |
| `PlacementLock.ExclusiveIffWithinMargin` | microceph/ceph/placement.go:60-70 | exclusion in all runs if and only if the skew is within the margin |
| `Reconcile.ControlServiceViability` | microceph/ceph/control_readiness.go:213-275 | marks exactly the observed services that are to be removed or ready, in any arrival order, once something is to be removed |
| `Reconcile.CountRetainers` | microceph/ceph/placement.go:407-426 | counts the viable members that are not to be removed |
| `Reconcile.RemoveTargets` | microceph/ceph/placement.go:396-442 | for every iteration order all targets go or all are refused, and a viable member remains |
| `Reconcile.RemoveAll` | microceph/ceph/placement.go:386-442 | the removal pass over all services keeps every one safe, whatever fails; one that ends is complete for each |
| `Reconcile.AddMissing` | microceph/ceph/placement.go:372-385 | adds exactly the wanted members, never drops one |
| `Reconcile.ReconcileControl` | microceph/ceph/placement.go:343-442 | adds precede removals; only explicit wishes change anything, so a member the policy leaves out or names without a wish keeps exactly what it had; whoever loses a service was to lose it and a ready member keeps it; without faults every wish is fulfilled or refused, independently of order |
| `Reconcile.GuardedIffRetained` | microceph/ceph/placement.go:407-431 | the keep-one count agrees with Ceph readiness wherever a removal is at stake |
| `MonQuorum.CountStaying` | microceph/ceph/monitor.go:236-299 | counts the quorum members of the map that stay |
| `MonQuorum.Cluster.EnsureMonAbsent` | microceph/ceph/monitor.go:236-299 | changes the map only when the survivors are a live majority of the new map; without faults refuses exactly a member the quorum cannot do without; absent is reported only when true |
| `MonQuorum.RemoveMany` | microceph/ceph/monitor.go:236-299 | any run of guarded removals leaves a live majority of a non-empty map |
| `MonQuorum.MajoritiesIntersect` | microceph/ceph/monitor.go:236-299 | a majority before and a majority after a removal share a member |
| `MonQuorum.GuardIsTight` | microceph/ceph/monitor.go:257-279 | the threshold is the least one that gives a majority |
| `Teardown.Service.EnsureMonAbsent` | microceph/ceph/monitor.go:236-299 | success means absent from the monitor map; without faults it fails exactly when the quorum needs this monitor |
| `Teardown.Service.DeleteService` | microceph/ceph/services.go:267-341 | keeps the phase order at every boundary; success means stopped, unmapped, cleaned and unrecorded; without faults it finishes exactly when the quorum does not need the monitor |
| `Teardown.RetryUntilDone` | microceph/ceph/services.go:210-341 | after any failed attempts, with other monitors coming and going, no state dropped the record early or stopped a mapped monitor, data was cleaned only after the stop and out of the map, and a fault-free attempt finishes exactly unless the service is a monitor the quorum needs |
| `Bootstrap.Database.AtomicStartBootstrap` | microceph/ceph/bootstrap_ceph.go:192-313 | the transaction as one step with its whole table of answers; it proceeds only without fsid and keyring rows, and from in-progress only when forced |
| `Bootstrap.Race` | microceph/ceph/bootstrap_ceph.go:96-313 | members racing through the transaction produce exactly the runs the lemmas are about |
| `Bootstrap.RecordTellsTheResult` | microceph/ceph/bootstrap_ceph.go:132-173 | the row ends as bootstrapped after steps that worked and as failed after others, and the fsid stays |
| `Bootstrap.SecondWriterFails` | microceph/database/schema.go:53-58 | whoever comes second to write the rows changes none, raises nothing and is recorded as failed |
| `Bootstrap.UndisturbedBootstrap` | microceph/ceph/bootstrap_ceph.go:96-173 | from every state without rows an undisturbed attempt records its fsid, raises its cluster and ends as bootstrapped, and whoever follows is told so |
| `Bootstrap.StaleRowIsRepaired` | microceph/ceph/bootstrap_ceph.go:315-378 | a stale lifecycle row is repaired exactly when the recorded cluster answers |
| `Bootstrap.NoStepsOverAnExistingCluster` | microceph/ceph/lifecycle.go:48-66 | forced or not, no steps start once the rows exist |
| `Bootstrap.StepKeepsIdentity` | microceph/ceph/bootstrap_ceph.go:96-173 | recorded rows never change, and every raised cluster is the recorded one |
| `Bootstrap.AtMostOneCluster` | microceph/database/schema.go:53-58 | no run, even forced, records two fsids or raises two clusters |
| `Bootstrap.StepKeepsOwner` | microceph/ceph/bootstrap_ceph.go:192-313 | without force the row has at most one owner through every step |
| `Bootstrap.AtMostOneInFlight` | microceph/ceph/bootstrap_ceph.go:132-173 | without force at most one set of steps is in flight in every interleaving |
| `Bootstrap.JoinsLiveBootstrapIff` | microceph/ceph/bootstrap_ceph.go:192-313 | in every run, a start beside a live bootstrap joins it if and only if the rows are not written and it is forced or the lifecycle row is not in progress |
| `Bootstrap.ForceJoinsIff` | microceph/ceph/bootstrap_ceph.go:192-313 | in every run, a forced start joins a live bootstrap if and only if the fsid and keyring rows are not written yet |
| `Bootstrap.ForceAdmitsTwoInFlight` | microceph/ceph/bootstrap_ceph.go:192-313 | a witness run |
| `OsdRemoval.LawfulOrder` | microceph/ceph/osd.go:2075-2243 | in a lawful trace an OSD that any look found in the tree is out, and safe to stop unless bypassed, before it is stopped or marked down or committed; one that was not found is looked for again after the stop; the removal is committed only when the OSD is down or the map no longer has it; down and purge follow the stop with no process running, purge without bypass follows safe-to-destroy, restoration never follows the commit, and partitions and record go only after a last look that found no id |
| `OsdRemoval.SummaryIsHistory` | microceph/ceph/osd.go:2075-2243 | the commands an entry's summary lists are exactly those before it |
| `OsdRemoval.LooksAreHistory` | microceph/ceph/osd.go:2075-2243 | what a summary says of the tree and the map is what the looks before it found |
| `OsdRemoval.Removal.Prepare` | microceph/ceph/osd.go:2075-2129 | an OSD found in the tree is taken out, after a safe-to-stop check unless bypassed, before anything else happens to it |
| `OsdRemoval.Removal.SuppressAutostart` | microceph/ceph/osd.go:1053-1091 | success leaves no ready marker and keeps the old one aside if there was any; failure leaves the ready marker |
| `OsdRemoval.Removal.RestoreAutostart` | microceph/ceph/osd.go:1093-1121 | runs only before the commit; success after a suppression makes the marker ready again |
| `OsdRemoval.Removal.PurgeWithRetries` | microceph/ceph/osd.go:1967-1996 | success means gone from the map; without faults nine outstanding boots are survived in any order |
| `OsdRemoval.Removal.PurgeOsd` | microceph/ceph/osd.go:2001-2033 | success means the last look saw the id absent and only a boot landing later can bring it back; without faults the outcome is the one the schedule determines, and one late boot is survived |
| `OsdRemoval.PurgeSucceedsIff` | microceph/ceph/osd.go:1967-2033 | without faults the purge reports success under every schedule of the environment if and only if fewer than two boots are outstanding |
| `OsdRemoval.PurgeIsFinalIff` | microceph/ceph/osd.go:1967-2033 | without faults it reports success and the id stays away whatever follows, under every schedule, if and only if no boot is outstanding |
| `OsdRemoval.ReturnsIff` | microceph/ceph/osd.go:2001-2033 | an id that the last look found absent can come back if and only if a boot is outstanding then |
| `OsdRemoval.OneBootReturns` | microceph/ceph/osd.go:2001-2033 | a schedule in which one boot lands after the last look |
| `OsdRemoval.BootsDefeatRounds` | microceph/ceph/osd.go:2001-2033 | for every OSD with two outstanding boots, a schedule that defeats both rounds |
| `OsdRemoval.Removal.StopAndDown` | microceph/ceph/osd.go:2146-2200 | stops before any down; an id that will not be purged was seen absent |
| `OsdRemoval.Removal.ForgetOsd` | microceph/ceph/osd.go:2219-2242 | the record goes exactly when every earlier cleanup worked |
| `OsdRemoval.Removal.RemoveOsd` | microceph/ceph/osd.go:2075-2243 | the trace is lawful; errors keep the record; failures after the commit leave the OSD stopped with autostart off; one before it tries to give a lost ready marker back; without faults one late boot is survived |
| `OsdRemoval.RetryRemoval` | microceph/ceph/osd.go:2075-2243 | over any attempts every trace is lawful and the record is gone exactly when the last attempt succeeded |
| `RackDomain.CountOsdsInRack` | microceph/ceph/crush.go:205-226 | counts the OSDs listed by the hosts of the zone's rack |
| `RackDomain.CountZonesWithOsds` | microceph/ceph/crush.go:188-203 | counts the zones with OSDs, the given one always included |
| `RackDomain.CountedIff` | microceph/ceph/crush.go:205-226 | an OSD counts for a rack exactly if it is a child of a listed host |
| `RackDomain.IsRackDegradeBlocked` | microceph/ceph/osd.go:1870-1914 | refuses exactly when, on the rack rule, three or fewer zones are in use and the tagged zone's rack has at most one OSD |
| `RackDomain.BlockedIffBreaks` | microceph/ceph/osd.go:1870-1914 | with hosts tagged by their rack's zone the check refuses exactly the removals that leave fewer than three zones |
| `RackDomain.RackRemoved` | microceph/ceph/crush.go:205-226 | a removal takes exactly that OSD out of every rack's list |
| `RackDomain.ActiveAfterRemoval` | microceph/ceph/crush.go:188-226 | the zones in use lose the OSD's own zone exactly when it was the last there |
| `RackDomain.AllowedRemovalBreaksIff` | microceph/ceph/osd.go:1870-1914 | the exact condition under which an allowed removal leaves fewer than three zones |
| `RackDomain.AllowedRunKeepsZones` | microceph/ceph/osd.go:1870-1914 | with hosts tagged by their rack's zone every allowed run of removals keeps three zones |
| `RackDomain.UntaggedHostLosesAZone` | microceph/ceph/osd.go:1870-1914 | a concrete tree where the check lets the third zone go |
| `SyncVerdict.ValidateSyncShards` | microceph/ceph/rgw_multisite.go:201-214 | accepts exactly the keys in range |
| `SyncVerdict.MetadataVerdict` | microceph/ceph/rgw_multisite.go:379-421 | period mismatch first, then a missing log, else the comparison; the first two claim nothing else |
| `SyncVerdict.DataVerdict` | microceph/ceph/rgw_multisite.go:425-456 | a missing log claims nothing, else the comparison |
| `Common.LessIsLexicographic` | microceph/ceph/rgw_multisite.go:395-411 | the order of markers is the lexicographic one |
| `SyncVerdict.CoveredIffEnoughKeys` | microceph/ceph/rgw_multisite.go:413-419 | keys in range cover every shard exactly when there are as many distinct ones as shards |
| `SyncVerdict.CountIsKeys` | microceph/ceph/rgw_multisite.go:395-411 | the counter never undercounts and is exact for distinct keys |
| `SyncVerdict.CaughtUpIff` | microceph/ceph/rgw_multisite.go:379-421 | a level zone is always reported; a wrong report happens exactly when repeated keys hide a missing shard |
| `SyncVerdict.CaughtUpIsLevel` | microceph/ceph/rgw_multisite.go:379-456 | with distinct keys, caught up means every shard incremental and none behind a reported head |
| `SyncVerdict.BehindListed` | microceph/ceph/rgw_multisite.go:395-411 | the list holds exactly the incremental shards whose marker is less than the peer's, each once for distinct keys |
| `SyncVerdict.FullSyncIsTheRest` | microceph/ceph/rgw_multisite.go:413-416 | the full-sync count is the number of shards without an incremental marker |
| `SyncVerdict.RepeatedKeyReadsAsCaughtUp` | microceph/ceph/rgw_multisite.go:201-214 | a validated response with a repeated key is called caught up while a shard is missing |

## Left out

RGW publication:

- `DisableRGW`: it deletes pairs before the configuration and so gives up the invariant on purpose.
- Durability below a rename or an unlink: a removal that is not yet on disk when the power fails is not reordered.
- Certificate checks, TLS handshakes and the readiness probe are outcomes; a generation's name is taken to be
  injective in its pair.
- RgwPublication.Gateway.Enable: the database transaction reports truthfully whether it was committed.
- An empty previous configuration file is treated as no file, as the journal does.
- A gateway comes up on any configuration file, with or without a recognised frontend line, and never without one.

WAL/DB partitions:

- AuxOwnership.Run: UUIDs are fresh and nobody repartitions by hand. A record without its device link is not
  protected, as `AuxOwnership.ResetsKeepRecordsIff` says.
- AuxOwnership.Member.AddDisks: the tables hold slots and UUIDs; where a partition lies on its disk is not modelled.
- AuxPlanner.PlanExecutes: needs an inventory that agrees with the disk and commands that work; the failing paths are
  in `AuxOwnership`.
- Selecting data disks, the DSL parser, explicit WAL/DB devices, encryption, loop-file OSDs and legacy manifests.

Placement:

- PlacementLock.MutualExclusion: tokens are distinct and work obeys its deadlines. A clear is given its own shorter
  deadline.
- The RGW pass, policy normalisation and storage format, placement status and refusal text.
- Reconcile.ReconcileControl: a service's readiness does not change during the pass.

Monitors, services, bootstrap:

- MonQuorum.RemoveMany: no monitor fails between the guard and the removal, and names are distinct.
- Between teardown attempts a recorded service may restart, but a removed monitor does not rejoin the map.
- Bootstrap steps are one row-writing step, one bring-up and a result; the commands inside are not modelled.

OSD removal, racks, sync:

- OsdRemoval.Removal.RemoveOsd: a process is respawned only while its ready marker exists; the first checks are one
  step. A retry that fails before its commit restores a marker that an earlier attempt had left suppressed after
  its own commit, as the source does.
- RackDomain.AllowedRunKeepsZones: each listed OSD sits once, in the rack of its host's zone; the OSD's own tree
  entry stays, which no count looks at.
- SyncVerdict.CaughtUpIsLevel: a shard the peer does not report is skipped, as the source documents.

Elsewhere: RBD and CephFS replication, NFS, remotes, maintenance, network lookup and the command-line client.
