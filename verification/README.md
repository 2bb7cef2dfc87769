# T300 candidate verification

A Dafny model of the parts of the T300 controller migration where mistakes would matter at the printer, and
proofs about them. Everything is checked with

    dafny verify dfyconfig.toml

## What is modelled

**G-code admission.** `Lines` and `GcodeReader` are the byte-level loop of `scan_gcode`: chunked reading, the
digest, the bounded findings list. `GcodePolicy` is one command's effect on the scanner's state, with exact reals
and the source's constants; each E word carries whether it was written with at most five decimals, and the
distance of a move is decided on squares. `GcodeSafety` runs an accepted file on an independent machine, which
knows where the head is and keeps its own ledger of filament, and bounds what can ooze, what is pushed in place,
where the head can be and how thick a bead can get. `GcodeLifecycle` says in which order commands appear in an
accepted file, that no setting exceeds its ceiling, and that a purge lane stays clear. `GcodeAcceptance` says which
files are accepted, both ways and without the scanner's accounts: from the words, the machine and the list of its
filament strokes. `GcodeSample` is an accepted print under the production policy.

**The admission daemon.** `AdmissionDaemon` is the class with its two caches and three directories; the outside
world (the G-code root, the policy file, storage limits, input and output failures) is a function of time. From
`startup_preflight` on, every reachable state has sound approvals. After a start and two scans of an unchanging
root the approvals are those of scanning every file from scratch, and later scans change nothing. From any other
state, two such scans get there exactly under a stated condition.

**Commissioning and deployment.** `CandidateState` is the state that gates decide on, `Commissioning` the
controller's transitions with their failure clean-up, `ConfigDeploy` the configuration swap, `CandidateRuns`
whole runs of both, step by step, mixed with unit exits, automatic restarts, hand edits and reboots; `OverlapRun` and
`ReleaseRun` are two such runs. `CandidateGuards` says on the bare fields what each command and each start must find
and what it leaves. A ghost log of what the owner confirmed and what was installed gives markers their meaning.

**Remote configuration.** `ConfigTransaction` is the upload, read-back, restart and rollback of
`apply_config_transaction` with its restart observer; `PrinterPatch` the include patchers, on texts;
`ConfigAudit` the auditor's include walk, the order it lists sections in, and the merged section that follows.

**Touchscreen and timelapse.** `Touchscreen` folds the bridge's object queries and translates replies.
`Timelapse` follows every camera frame through capture, clean-up and rendering, over whole sessions.

What systemd, the USB device, files, the camera and the network answer is an input: a record of answers for each
command, render and capture, a schedule for each deployment, a function of time for the admission daemon and the
remote transaction. Contracts say for every answer what a method does with it.

## Where the code does not do what one would expect

* An overflow scan revokes every approval but keeps `processed`, so files that come back as they were are not
  judged again. Two scans of a quiet root make the approvals right exactly if no acceptable candidate is processed
  at its present fingerprint: `AdmissionDaemon.AfterOverflow`; for any other state, `AdmissionDaemon.TwoScans`.
* A file that changes during its admission leaves the observed cache but keeps the approval just written. If it
  then vanishes, no later scan withdraws that approval: `AdmissionDaemon.VanishedFile`, and
  `AdmissionDaemon.DroppedApprovalStays` for such a state.
* `klipper-maintenance.service` conflicts with Klipper and Moonraker but not with the admission daemon, which
  restarts on failure and whose gate does not look at maintenance. The two can run together, and no other
  production unit can join a maintenance session: `CandidateState.OnlyAdmissionOverlaps`; a run from a fresh
  candidate that ends so: `OverlapRun.OverlapIsReached`.
* The gate of `klipper-maintenance.service` does not look at the transfer channel either; the command that starts it
  does. A start outside that command is safe exactly while the channel is closed: `CandidateState.StartIsSafe`.
* `render` probes for a free video name inside its try block. If the probe of a taken name raises, the error
  branch unlinks that name, an older verified video. A call loses a video, or a shot held by nothing else, exactly
  under conditions on the state and the probes before it: `Timelapse.CallKeeps`; `Timelapse.ProbeLosesShot` is a
  state where it happens, `Timelapse.SessionKeeps` the same for whole sessions.
* An operating system error that escapes the removal of the upload, after the journal is complete, is reported as a
  failed deployment, but the new tree stays installed. That an error leaves the old tree unless the rollback exchange
  itself failed holds, over all schedules of failures, exactly for bundles that are not read from the upload
  quarantine: `ConfigDeploy.ErrorMeansOldTree`; `ConfigDeploy.LateErrorRun` is a call where it does not.
* A render whose partial file cannot be removed stays "running": every later render is refused until the component
  restarts: `Timelapse.StuckStays`, `Timelapse.RenderIsOver`.
* A transition that fails leaves its marker further advanced exactly if a systemctl call of its clean-up raises:
  `CandidateRuns.FailedCommand`.
* `patch_printer_cfg` puts its include behind a Macro.cfg line that lacks a line ending on the same line, where
  it is not an include any more: `PrinterPatch.SecondCallFindsIt`, and `PrinterPatch.KnobIsLost` for such a file. The
  two newer patchers do not.

## Model

| member | source | states |
|---|---|---|
| `Lines.SplitLinesJoin` | t300_mainline/gcode_policy.py:683-689 | joining the newline-split lines of a file gives the file back: nothing is lost or reordered |
| `Lines.SplitLinesAreLines` | t300_mainline/gcode_policy.py:683-689 | every split line but the last ends in the only newline it contains |
| `Lines.JoinSplits` | bin/t300ctl.py:346-354 | splitting joined lines gives the same lines, so a patched text is read back line by line as it was written |
| `GcodeReader.ChunkOfLine` | t300_mainline/gcode_policy.py:685-706 | reading in chunks of max_line_bytes + 1 from anywhere inside a line stays inside that line |
| `GcodeReader.FirstChunkDecides` | t300_mainline/gcode_policy.py:685-711 | whether a line is too long, and what it parses to, is decided by its first chunk alone |
| `GcodeReader.DrainLine` | t300_mainline/gcode_policy.py:699-706 | draining an over-long line feeds exactly the rest of that line to the digest and stops at its end |
| `GcodeReader.FindingList.Add` | t300_mainline/gcode_policy.py:667-681 | the list holds the reported findings up to max_findings, the last of them the truncation record; later ones change nothing |
| `GcodeReader.TruncationKeepsVerdict` | t300_mainline/gcode_policy.py:667-681 | truncation never turns a non-empty list of findings into an empty one, nor the reverse, and the bound is kept |
| `GcodeReader.ScanGcode` | t300_mainline/gcode_policy.py:633-1062 | the report of the whole loop: digest and size of exactly the given bytes, line count, and findings that are the truncated list of every problem of the file; accepted exactly if the file is admissible |
| `GcodeReader.CheckEntry` | t300_mainline/gcode_policy.py:707-1035 | one line reports exactly the problems the specification gives it and takes the scan to the specified next state |
| `GcodePolicy.ValidateObject` | t300_mainline/gcode_policy.py:501-555 | an object is measured exactly if name, centre and polygon are in order; then all vertices lie at or beyond the two minima it returns, and its vertex count is right |
| `GcodePolicy.MinX` | t300_mainline/gcode_policy.py:538-555 | the running minimum is attained by a vertex and is below all of them |
| `GcodeSafety.AxesSound` | t300_mainline/gcode_policy.py:884-913 | from a box position, an accepted move takes an independent machine to where the scanner's known axes say, keeps unknown axes at home, keeps known axes in the box, and the scanner's distance is the machine's |
| `GcodeSafety.SettleSound` | t300_mainline/gcode_policy.py:927-1033 | one E advance keeps the account invariants: stationary + credit within retracted + rounding used, rounding within budget, credit within max_extrude_only_distance, ooze since the last deposit bounded |
| `GcodeSafety.StepSound` | t300_mainline/gcode_policy.py:721-1035 | any command accepted without a finding keeps machine, position and accounts tied together |
| `GcodeSafety.CleanRunSound` | t300_mainline/gcode_policy.py:683-1035 | the same for every finding-free run, by induction over the lines |
| `GcodeSafety.OozeIsBounded` | t300_mainline/gcode_policy.py:927-1033 | at every line of an accepted file, the net filament advanced since the last moving extrusion or START_PRINT is at most 0.000325 mm |
| `GcodeSafety.StationaryIsPaidFor` | t300_mainline/gcode_policy.py:932-1033 | at every line of an accepted file, stationary positive E is at most the retracted E plus 0.0001 plus 0.00001 of the moving E |
| `GcodeSafety.PositionIsSound` | t300_mainline/gcode_policy.py:854-913 | at every line, from any start in the policy box: every axis the scanner knows is the machine's, every unknown axis has not moved, and the machine is in the box |
| `GcodeSafety.CrossSectionBySquares` | t300_mainline/gcode_policy.py:1015-1028 | deciding the cross-section limit on squares is deciding e * area / distance <= limit, a zero distance refused |
| `GcodeSafety.FlowIsBounded` | t300_mainline/gcode_policy.py:1010-1029 | over an accepted file the filament volume of all extruding moves is at most max_extrude_cross_section times the Euclidean length of those moves |
| `GcodeSafety.RoundingsAreRare` | t300_mainline/gcode_policy.py:944-1005 | rounding allowance is spent at most once more often than there are extruding moves |
| `GcodeSafety.RoundingsAreOrca` | t300_mainline/gcode_policy.py:944-983 | allowance is spent only by a relative E word written with at most five decimals |
| `GcodeAcceptance.AcceptedExactly` | t300_mainline/gcode_policy.py:633-1062 | the scanner accepts exactly the files within the size and line limits whose every line may stand behind those before it, with a START_PRINT and an END_PRINT |
| `GcodeAcceptance.StepExactly` | t300_mainline/gcode_policy.py:707-1035 | behind clean lines a command is clean if and only if it may stand there: settings within their ceilings, objects measured, G92 of E only, lifecycle in order, moves that may be made |
| `GcodeAcceptance.MoveExactly` | t300_mainline/gcode_policy.py:866-1035 | a move is clean if and only if its feed rate is positive, known axes stay in the box and unknown ones are named absolutely or stand still, and its stroke may be made: a thin bead from a known position, or a push that was pulled back before or is tolerated as rounding |
| `GcodeAcceptance.PushExactly` | t300_mainline/gcode_policy.py:940-1008 | a push in place is accepted if and only if it is at most what was pulled back, or the excess is armed, fine and within the three rounding limits |
| `GcodeAcceptance.CleanCarries` | t300_mainline/gcode_policy.py:683-1035 | in every clean run the scanner's credit, segment count, precision, arming, rounding used and moving total are those of the list of strokes, its known axes those named absolutely since START_PRINT, and its object minima are attained |
| `GcodeAcceptance.PulledIsNet` | t300_mainline/gcode_policy.py:933-936 | segments of a retraction add up: between deposits, while neither zero nor the limit is reached, what is pulled back is the net of the strokes |
| `GcodeSample.SampleIsAdmissible` | mainline/policy/gcode-policy.json:1-58 | the production policy is valid, and under it the scanner accepts a file with an object, a travel, a bead, a retraction and its recovery |
| `GcodeLifecycle.AcceptedLifecycle` | t300_mainline/gcode_policy.py:721-797 | an accepted file is preparation with at least one object, the only START_PRINT, a body without object definitions, the only END_PRINT, then only M400; and one bounded purge lane is clear of every object vertex |
| `GcodeLifecycle.AcceptedSettings` | t300_mainline/gcode_policy.py:558-608 | no line of an accepted file sets a temperature, speed, acceleration, cruise ratio (given or implied), current, pressure advance, percentage, fan power or dwell beyond its ceiling, and every object lies over the bed |
| `GcodeLifecycle.ImpliedRatio` | t300_mainline/gcode_policy.py:579-588 | an accepted ACCEL_TO_DECEL is at most (1 - floor) of the acceleration in force |
| `GcodeLifecycle.CleanCounts` | t300_mainline/gcode_policy.py:786-803 | the counts of objects, polygon points and frames are those of the commands in the file and within their limits |
| `AdmissionDaemon.WithdrawKeeps` | t300_mainline/admission_daemon.py:336-339 | revoking a vanished or irregular candidate keeps the books consistent |
| `AdmissionDaemon.AdmitKeeps` | t300_mainline/gcode_policy.py:1171-1241 | a new snapshot and its record keep the books consistent: the record names an existing snapshot with the recorded digest, accepted under the loaded policy |
| `AdmissionDaemon.ConcludeKeeps` | t300_mainline/admission_daemon.py:354-369 | replacing a path's approvals by the new one, or by none, and caching the verdict keeps the books consistent |
| `AdmissionDaemon.DropKeeps` | t300_mainline/admission_daemon.py:359-361 | forgetting a file that changed during its admission keeps the books consistent, its new approval included |
| `AdmissionDaemon.PruneKeeps` | t300_mainline/admission_daemon.py:247-284 | pruning keeps the books consistent and leaves exactly the snapshots that approvals name |
| `AdmissionDaemon.OverflowKeeps` | t300_mainline/admission_daemon.py:319-327 | an overflow scan leaves no approvals and no snapshots, the cache untouched, and the books consistent |
| `AdmissionDaemon.SharedSnapshotSurvives` | t300_mainline/admission_daemon.py:233-284 | revoking one of two paths with equal content and pruning keeps the shared snapshot and the other approval |
| `AdmissionDaemon.VanishedFile` | t300_mainline/admission_daemon.py:328-361 | a vanished file loses its approvals in the next quiet scan exactly if it is still in the observed cache; one that is not was dropped because it changed during its admission |
| `AdmissionDaemon.DroppedApprovalStays` | t300_mainline/admission_daemon.py:354-361 | such a state: consistent, its file gone, its approval left by every quiet scan |
| `AdmissionDaemon.SettledFrom` | t300_mainline/admission_daemon.py:328-371 | what a scan did for one path is the same seen from before and after the scan's pruning and forgetting |
| `AdmissionDaemon.QuietScanComposes` | t300_mainline/admission_daemon.py:313-374 | forgetting, one turn per candidate and pruning add up to one scan with the right admitted and rejected counts |
| `AdmissionDaemon.FirstScan` | t300_mainline/admission_daemon.py:340-353 | the first scan after a start judges nothing and remembers every candidate |
| `AdmissionDaemon.SecondScan` | t300_mainline/admission_daemon.py:340-371 | the second scan leaves exactly the approvals that scanning every candidate from scratch would give |
| `AdmissionDaemon.LaterScan` | t300_mainline/admission_daemon.py:340-374 | from then on a scan judges nothing, returns (0, 0) and changes neither approvals nor cache |
| `AdmissionDaemon.AfterOverflow` | t300_mainline/admission_daemon.py:320-327 | after an overflow scan of any consistent books, two scans of any quiet root leave exact approvals if and only if no acceptable candidate is already processed at its present fingerprint |
| `AdmissionDaemon.TwoScans` | t300_mainline/admission_daemon.py:328-374 | from any books, two scans of a quiet root leave exact approvals if and only if what the cache remembers at the present fingerprint was right and no path that is neither candidate nor watched holds an approval |
| `AdmissionDaemon.RootComesBack` | t300_mainline/admission_daemon.py:320-327 | for an up-to-date daemon whose root comes back after an overflow: nothing is judged, and the approvals are exact if and only if no candidate is acceptable |
| `AdmissionDaemon.AdmissionDaemon.constructor` | t300_mainline/admission_daemon.py:32-53 | the daemon starts with the digest of the policy file, the policy loaded from it in a second read, empty caches and whatever the three directories hold; if the file rested in between, content with the recorded digest loads as that policy |
| `AdmissionDaemon.AdmissionDaemon.RevokeAll` | t300_mainline/admission_daemon.py:224-231 | no approval is left |
| `AdmissionDaemon.AdmissionDaemon.RevokeRelative` | t300_mainline/admission_daemon.py:233-245 | exactly the approvals of one path go, except the one kept |
| `AdmissionDaemon.AdmissionDaemon.PruneUnreferencedSpool` | t300_mainline/admission_daemon.py:247-284 | exactly the snapshots no approval names are removed |
| `AdmissionDaemon.AdmissionDaemon.PruneRejections` | t300_mainline/admission_daemon.py:286-297 | at most the limit of records stays, and none that goes is younger, by time stamp and then name, than one that stays |
| `RejectionRecords.Prune` | t300_mainline/admission_daemon.py:286-297 | the oldest records beyond the limit go, one by one |
| `RejectionRecords.PrunedIsUnique` | t300_mainline/admission_daemon.py:286-297 | that fixes which records are left: the order of time stamps and names is total |
| `RejectionRecords.LessExactly` | t300_mainline/admission_daemon.py:286-297 | names are ordered by the first place where they differ |
| `RejectionRecords.PrunedByTime` | t300_mainline/admission_daemon.py:286-297 | no record that goes is younger than one that stays |
| `AdmissionDaemon.AdmissionDaemon.FailClosed` | t300_mainline/admission_daemon.py:122-129 | a changed policy leaves no approvals, no snapshots and empty caches, whatever the books were, and one record |
| `AdmissionDaemon.AdmissionDaemon.StartupPreflight` | t300_mainline/admission_daemon.py:299-311 | a start carries no approval and no snapshot over; a changed policy, or else too many candidates, leaves one record and counts as one rejection |
| `AdmissionDaemon.AdmissionDaemon.SnapshotSource` | t300_mainline/gcode_policy.py:1097-1140 | a snapshot has the size the file had when it was opened and again at the end, with the same time stamp and inode; each of its bytes is what the open file held there at one of the moments in between, and a file at rest is copied whole |
| `AdmissionDaemon.AdmissionDaemon.CommitSnapshot` | t300_mainline/gcode_policy.py:1143-1168 | the snapshot stands under its digest; an existing one is reused only with that content |
| `AdmissionDaemon.AdmissionDaemon.AdmitGcode` | t300_mainline/gcode_policy.py:1171-1241 | an approval is recorded exactly for scanned content the scanner accepts, under its path, digest, size and the policy file's digest at a moment of that call; a denial or failure records none |
| `AdmissionDaemon.AdmissionDaemon.ProcessPath` | t300_mainline/admission_daemon.py:333-371 | one turn touches only its own path and keeps the books consistent; in any environment a judged file ends with one approval or none, its fingerprint processed and, if not approved, a rejection record, while one that changed in between is forgotten with no count and no record; with nothing changing outside it does what the path's state calls for |
| `AdmissionDaemon.StatExactly` | t300_mainline/admission_daemon.py:155-162 | two looks at a path agree if and only if they see a regular file of the same size, time stamp and inode, or neither does |
| `AdmissionDaemon.AdmissionDaemon.ScanOnce` | t300_mainline/admission_daemon.py:313-374 | in any environment a scan leaves every approval sound, the spool exact, and every record it writes naming the policy file's digest at a moment of the scan; a changed policy fails closed; an overflow revokes all; a quiet one is the specified scan |
| `AdmissionDaemon.AdmissionDaemon.StartAndScanTwice` | t300_mainline/admission_daemon.py:299-374 | after a start and two scans of an unchanging root the approvals are exactly the pairs (path, digest) of acceptable candidates, and every record names the loaded policy's digest |
| `AdmissionDaemon.AdmissionDaemon.ScanAgain` | t300_mainline/admission_daemon.py:313-374 | every later scan returns (0, 0) and changes none of the three directories |
| `CandidateState.SubseqAppend` | t300_mainline/commissioning.py:693-831 | an ordered history stays one when something happens after it, and grows by what happened |
| `CandidateState.LogKeeps` | t300_mainline/commissioning.py:514-951 | recording anything but an installed bundle disturbs no marker's history |
| `CandidateState.ActivateSafe` | t300_mainline/commissioning.py:953-973 | a unit started past its gate, its conflicting units stopped, leaves no printer unit active beside an open transfer channel |
| `CandidateState.MaintenanceRunKeeps` | t300_mainline/commissioning.py:883-888 | consuming the one-shot marker and starting maintenance keeps all invariants, the count of arms included |
| `CandidateState.StartKeeps` | t300_mainline/commissioning.py:953-973 | any start job, successful or not, keeps all invariants |
| `CandidateState.OnlyAdmissionOverlaps` | mainline/systemd/klipper-maintenance.service:1-7 | a start brings maintenance and a production unit together exactly if it is the admission daemon's during a maintenance session |
| `CandidateState.StartIsSafe` | mainline/systemd/klipper-maintenance.service:1-16 | a start keeps the units safe, except maintenance started while the transfer channel is open |
| `CandidateState.StartAllFrame` | t300_mainline/commissioning.py:310-329 | start jobs change units only, and only add units of the call while maintenance does not run |
| `OverlapRun.OverlapIsReached` | mainline/systemd/t300-admission.service:1-18 | a run from a fresh candidate, all calls working, that ends with maintenance and the admission daemon running together |
| `CandidateState.HostAcceptKeeps` | t300_mainline/commissioning.py:554-584 | a validated host marker comes with the recorded acceptance of its configuration |
| `CandidateState.ReleaseArmKeeps` | t300_mainline/commissioning.py:693-745 | an unlocked armed marker extends the acceptance of the same configuration, after the bundle it names was installed |
| `CandidateState.StartedKeeps` | t300_mainline/commissioning.py:747-783 | a started marker extends the history of the armed one |
| `CandidateState.RearmKeeps` | t300_mainline/commissioning.py:766-781 | putting the armed marker back after a failed start keeps its history |
| `CandidateState.ReleaseAcceptKeeps` | t300_mainline/commissioning.py:785-831 | a release marker has the whole ordered history behind it |
| `Commissioning.CandidateController.constructor` | t300_mainline/commissioning.py:228-230 | a fresh candidate has no markers, no units and no history |
| `Commissioning.CandidateController.Start` | t300_mainline/commissioning.py:310-329 | systemctl start tries the units of the call in order: exactly those that systemd can run and whose gate is open then become active, their conflicts stopped |
| `Commissioning.CandidateController.StartMaintenance` | t300_mainline/commissioning.py:865-872 | starting maintenance consumes the marker first, past its gate, and may then still not run or report an error |
| `Commissioning.CandidateController.Stop` | t300_mainline/commissioning.py:310-329 | an unchecked stop or disable takes down exactly the named units that the answer does not list as still running or enabled, whether it returns or raises |
| `Commissioning.CandidateController.Undo` | t300_mainline/commissioning.py:537-551 | stop the units, then revoke the marker; the marker stays exactly if the stop raises |
| `Commissioning.CandidateController.HostTestStart` | t300_mainline/commissioning.py:514-552 | previews exactly when its guard holds and --apply is missing, is attempted exactly when the guard holds, the request is applied, confirmed and live and the marker can be written; done exactly if all host units and no printer unit then run, with the testing marker; else those units are stopped and the marker revoked, unless the stop raises |
| `Commissioning.CandidateController.HostTestAccept` | t300_mainline/commissioning.py:554-584 | attempted exactly on complete evidence for this candidate and configuration with the host units running and no printer unit; done: marker validated, units enabled; else they are disabled and stopped and the marker revoked, unless that call raises |
| `Commissioning.CandidateController.HostTestAbort` | t300_mainline/commissioning.py:586-598 | only a testing marker is removed, exactly when the call that stops and disables its units returns |
| `Commissioning.CandidateController.StorageEnable` | t300_mainline/commissioning.py:600-661 | done: both mounts active and enabled, the bridge restarted if it ran, the storage marker new; else as far as it got, with both mounts disabled and the marker revoked, unless one of the two calls raises |
| `Commissioning.CandidateController.ProductionArm` | t300_mainline/commissioning.py:663-691 | arms exactly on a validated host, ready storage, no printer unit, closed transfer and a locked configuration; if enabling fails the units are disabled and the marker revoked, unless that call raises |
| `Commissioning.CandidateController.ReleaseArm` | t300_mainline/commissioning.py:693-745 | arms exactly a completed calibrated deployment of the present configuration with the lock off, on recent evidence; a failure is undone like that of production_arm |
| `Commissioning.CandidateController.ProductionStart` | t300_mainline/commissioning.py:747-783 | done: marker started and all production units active; else they are stopped, and the armed marker is back, or none if it could not be rewritten; it stays started exactly if the stop raises |
| `Commissioning.CandidateController.ReleaseAccept` | t300_mainline/commissioning.py:785-831 | accepts exactly an unlocked running production on final evidence, adding nothing but the release marker, which records the digest of the production marker |
| `Commissioning.CandidateController.MaintenanceArm` | t300_mainline/commissioning.py:833-854 | arms one session exactly on recent evidence with no printer unit and a closed transfer channel |
| `Commissioning.CandidateController.MaintenanceStart` | t300_mainline/commissioning.py:856-881 | at most one start per arm; done exactly if the marker is gone and maintenance runs, else maintenance is stopped and a consumed marker stays consumed |
| `Commissioning.CandidateController.ConsumeMaintenanceMarker` | t300_mainline/commissioning.py:883-888 | takes the one-shot marker only with no production unit active |
| `Commissioning.CandidateController.TransportEnable` | t300_mainline/commissioning.py:890-931 | opens the channel only with no printer unit active; done exactly if ssh then runs, else it is stopped and the marker revoked, unless the stop raises |
| `Commissioning.CandidateController.TransportDisable` | t300_mainline/commissioning.py:933-951 | the marker goes exactly if the stop returns and ssh is seen stopped |
| `Commissioning.CandidateController.Reboot` | t300_mainline/commissioning.py:953-973 | after power loss the candidate is one with nothing active, followed by gated starts of each enabled unit once, in some order; configuration, journal and markers are as before |
| `Commissioning.CandidateController.AutomaticStart` | t300_mainline/commissioning.py:953-973 | a start of any unit but maintenance outside commands, ssh included, goes through the same gates |
| `CandidateRuns.ReleasedInOrder` | t300_mainline/commissioning.py:693-831 | a release marker exists only after, in this order and for one configuration: the calibrated unlocked bundle was installed, the host accepted, that deployment armed with the lock off, production started, the release accepted; no bundle since |
| `CandidateRuns.GateNeedsFreshAcceptance` | t300_mainline/commissioning.py:961-967 | the production gate is open only if the host was accepted for the present configuration after the last installed bundle |
| `CandidateRuns.AppliedBundleClosesGate` | t300_mainline/config_deploy.py:566-589 | an installed bundle closes the production gate and makes every earlier acceptance stale |
| `CandidateRuns.Run` | t300_mainline/commissioning.py:514-973 | every step of every run of commands, bundle applications, unit exits, restarts, edits and reboots, with any answers and failures, does exactly what the step and its answers determine; in every state between them the units are safe, maintenance starts plus an outstanding marker never exceed arms, and every marker has its history |
| `CandidateRuns.CommandFrame` | t300_mainline/commissioning.py:514-951 | whatever fails, a command changes nothing but its own marker and the units it names; one that is not attempted changes nothing |
| `CandidateRuns.FailedCommand` | t300_mainline/commissioning.py:526-931 | a command that fails leaves no marker further advanced than before if and only if the systemctl calls of its clean-up return |
| `CandidateGuards.RunIsExplained` | t300_mainline/commissioning.py:514-951 | in every run, every attempt and every preview was made on what its step asks for: markers, units, locks and journal as they must be, and evidence for this candidate and configuration with each named check confirmed, recent where that is asked; every done command left exactly what it should |
| `CandidateGuards.AttemptedExactly` | t300_mainline/commissioning.py:430-461 | a command is attempted if and only if it finds what it needs, written out on the bare fields, and is applied; it previews if and only if it finds it and --apply is missing |
| `CandidateGuards.DoneExactly` | t300_mainline/commissioning.py:514-951 | a done command leaves exactly this marker, these units and this history, to the last field |
| `CandidateGuards.GateExactly` | t300_mainline/commissioning.py:953-973 | what systemd must find before it starts a unit, written out |
| `CandidateGuards.StartExactly` | t300_mainline/commissioning.py:310-329 | a start job runs its unit exactly if systemd can and the gate is open, and stops only maintenance, or for maintenance Klipper and Moonraker |
| `ReleaseRun.ReleaseIsReached` | t300_mainline/commissioning.py:785-831 | a run from a fresh candidate to an accepted release, all calls working |
| `ConfigDeploy.SwapKeeps` | t300_mainline/config_deploy.py:566-589 | the new tree with its four gates closed keeps every invariant, whatever was accepted before |
| `ConfigDeploy.DeploymentOutcomes` | t300_mainline/config_deploy.py:753-872 | for every schedule of failures the installed tree is wholly old or wholly new, and the new one exactly if the journal was completed or a later step and then the rollback exchange failed; a complete journal means the new tree with host, production, transport and release markers gone |
| `ConfigDeploy.ErrorMeansOldTree` | t300_mainline/config_deploy.py:791-868 | an error leaves the old tree unless the rollback exchange failed, for all schedules, if and only if the bundle is not read from the upload quarantine |
| `ConfigDeploy.LateErrorRun` | t300_mainline/config_deploy.py:826-863 | a permitted call on a consistent candidate that ends as an error with the new tree installed and no rollback tried |
| `ConfigDeploy.Deployer.Exchange` | t300_mainline/config_deploy.py:592-608 | both trees change places or neither does, and the call is recorded with its result |
| `ConfigDeploy.Deployer.Build` | t300_mainline/config_deploy.py:757-789 | succeeds exactly if every step of backup and build does; then the complete next tree and a complete backup stand; otherwise no older tree or backup is touched |
| `ConfigDeploy.Deployer.RenameOld` | t300_mainline/config_deploy.py:795-803 | the old tree stands under exactly one of its two names, by whether the rename works |
| `ConfigDeploy.Deployer.RollBack` | t300_mainline/config_deploy.py:846-868 | the exchange back is tried; if it works the old tree is installed again, if not it stays beside the new one |
| `ConfigDeploy.Deployer.Finish` | t300_mainline/config_deploy.py:791-868 | after the exchange: applied exactly if verification and the completing journal write work and no error escapes the removal of the upload, a late error if one escapes, else one exchange back and an error |
| `ConfigDeploy.Deployer.ConsumeUpload` | t300_mainline/config_deploy.py:826-863 | a late error exactly if the bundle was read from quarantine and an error escapes the removal; then the journal is marked failed if it can be, else it stays complete; no other upload goes |
| `ConfigDeploy.Deployer.ApplyBundle` | t300_mainline/config_deploy.py:669-872 | previews exactly when every check passes and --apply is missing, and is attempted exactly when it is applied, confirmed, live and nothing is in its way; for every schedule of failures it makes exactly the renameat2 calls of that schedule, ends as it says, with exactly the trees and backups beside the installed one that it says, the old tree among them unless it is installed, no other touched, and the upload removed only if it is this bundle, after completion |
| `CandidateGuards.DeployedExactly` | t300_mainline/config_deploy.py:669-752 | a bundle is attempted if and only if it fits the candidate and its configuration, everything is off, no maintenance or transfer gate is there, the idle evidence is recent and complete, and nothing is in the way |
| `CandidateGuards.MarkersExactly` | t300_mainline/config_deploy.py:566-589 | an installed tree has no host, production, transport or release marker; the storage marker names the new configuration and the bundle and is otherwise as it was; a maintenance marker is untouched |
| `CandidateGuards.StorageSurvives` | t300_mainline/config_deploy.py:579-589 | storage that was enabled, or up, before any attempt is so after it, for the configuration then installed |
| `CandidateGuards.JournalExactly` | t300_mainline/config_deploy.py:737-751 | the journal is about this candidate and this bundle, its calibration and lock included |
| `ConfigTransaction.WaitForRestartReady` | bin/t300ctl.py:1062-1100 | ready if and only if a transition and then a ready printer are seen before the deadline, and before any error state has lasted three seconds, by the clock readings at its first and last sight |
| `ConfigTransaction.ProposedIs` | bin/t300ctl.py:1160-1169 | the proposal has every changed file as changed and every other file as it was |
| `ConfigTransaction.ProposalReached` | bin/t300ctl.py:1165-1169 | files that read back as proposed and agree elsewhere are the proposal |
| `ConfigTransaction.OriginalsReached` | bin/t300ctl.py:1184-1212 | changed files all as reviewed, and agreement elsewhere, are the original files |
| `ConfigTransaction.Transaction.CheckReviewed` | bin/t300ctl.py:1136-1155 | passes only if every file is as reviewed, new ones absent; fails only if one is not, or an answer is not a healthy one |
| `ConfigTransaction.Transaction.UploadAll` | bin/t300ctl.py:1160-1170 | the first upload comes right after an idle check; succeeds only with exactly the proposal on the remote and a new idle check, although an upload that raises may have had any effect on its file; fails only after an answer that is not a healthy one |
| `ConfigTransaction.Transaction.RestoreOne` | bin/t300ctl.py:1186-1195 | reports success only if the file is as reviewed, absent if it was new, and does so if all answers are healthy |
| `ConfigTransaction.Transaction.RollBack` | bin/t300ctl.py:1184-1197 | clean only if every changed file is as reviewed, and clean if all answers are healthy; other files are never touched |
| `ConfigTransaction.Transaction.Apply` | bin/t300ctl.py:1129-1212 | a normal return: exactly the proposal and a printer seen ready after the restart; preflight errors change nothing and have a reason; a call that fails after its restart restarts exactly once more, on the files it leaves; restored means the original files, with the printer seen ready on them if there was a restart; incomplete means an unhealthy answer after the rollback began; the first restart is issued only on exactly the proposal, every changed file read back since the last upload, and it and the first upload only right after the printer was seen idle |
| `ConfigAudit.ReachableTrans` | bin/audit-t300-config.py:152-180 | include chains compose |
| `ConfigAudit.ClosedContainsReachable` | bin/audit-t300-config.py:152-180 | a set closed under includes holds everything reachable from it, cycles or not |
| `ConfigAudit.Walk.Visit` | bin/audit-t300-config.py:152-178 | a visit lists exactly the file's expansion: each section directly followed by the unvisited files it includes; it adds only reachable files, leaves the others alone, and fails only on an unreadable reachable file; unvisited files bound the recursion |
| `ConfigAudit.ExactlyReachable` | bin/audit-t300-config.py:130-180 | the visited files are exactly the reachable ones, each with its sections in order |
| `ConfigAudit.LoadTree` | bin/audit-t300-config.py:130-180 | succeeds exactly if every reachable file can be read; then lists each reachable file once and nothing else, in expansion order, each file's sections in order, and the patterns that lead nowhere |
| `ConfigAudit.NoHeaderBetween` | bin/audit-t300-config.py:107-113 | between one header and the next, or the end, there is no header |
| `ConfigAudit.ParseSections` | bin/audit-t300-config.py:97-127 | one section per header, from it to the next header or the end, with exactly the options in between in order |
| `ConfigAudit.OptionsExactly` | bin/audit-t300-config.py:112-115 | each option is what its line says, with that line's number, in line order, and every option line of the section is read |
| `ConfigAudit.WantedExactly` | bin/audit-t300-config.py:196-204 | a section is wanted if and only if its kind and its name agree, letter case aside |
| `ConfigAudit.FirstSection` | bin/audit-t300-config.py:196-222 | None exactly if no section matches; else the first match's header, every option with its last value and line in listing order and no other option, and the raw text and place of the last match with a gcode option, or the last one |
| `ConfigAudit.EffectiveSection` | bin/audit-t300-config.py:130-222 | what the auditor sees under a name: that merged section, of the sections in expansion order; fails exactly if a reachable file cannot be read |
| `ConfigAudit.LastValueIsLast` | bin/audit-t300-config.py:205-213 | the value found is set by an option that no later one sets again; none is found exactly if the key is not set |
| `ConfigAudit.IncludingFileWins` | bin/audit-t300-config.py:152-222 | a value set after an include wins over the included file's: the order of expansion decides |
| `PrinterPatch.OneName` | bin/t300ctl.py:338-354 | a line is an include of at most one file, letter case aside |
| `PrinterPatch.IncludeHasForm` | bin/t300ctl.py:342-344 | an include line is space, `[include`, space, the name, the bracket, space and perhaps a comment, letter case aside |
| `PrinterPatch.FormIsInclude` | bin/t300ctl.py:342-344 | and every such line is one |
| `PrinterPatch.MarkerHasForm` | bin/t300ctl.py:378 | a SAVE_CONFIG marker is space, `#*#`, anything, and SAVE_CONFIG as a word, letter case aside |
| `PrinterPatch.FormIsMarker` | bin/t300ctl.py:378 | and every such line is one, so the includes stand before the first of them |
| `PrinterPatch.BodyExactly` | bin/t300ctl.py:376 | matching leaves out exactly the line-ending characters at the end |
| `PrinterPatch.LowerExactly` | bin/t300ctl.py:365 | letter case is that of the 26 letters |
| `PrinterPatch.WordExactly` | bin/t300ctl.py:378 | words are made of letters, digits and the underscore |
| `PrinterPatch.NewlineExactly` | bin/t300ctl.py:386 | the includes end in CRLF if and only if there is a CRLF in the text |
| `PrinterPatch.Patch` | bin/t300ctl.py:358-431 | fails exactly without a Macro.cfg include; else returns the specified text and whether it differs (names of patch_core_printer_cfg or patch_runtime_printer_cfg) |
| `PrinterPatch.PatchIsIdempotent` | bin/t300ctl.py:358-431 | for LF/CRLF texts the second call succeeds and reports no change |
| `PrinterPatch.EachIncludeOnce` | bin/t300ctl.py:358-431 | read back, the patched text has each managed include once, in order, right before the first SAVE_CONFIG marker or at the end; all other lines are kept in order, at most one gaining a line ending |
| `PrinterPatch.CoreIsManaged` | bin/t300ctl.py:49-50 | the core file name meets what these results ask of the names |
| `PrinterPatch.RuntimeIsManaged` | bin/t300ctl.py:51-53 | so do the two runtime file names |
| `PrinterPatch.MacroStays` | bin/t300ctl.py:367-369 | patching keeps the Macro.cfg include, so a second call does not fail |
| `PrinterPatch.PatchPrinter` | bin/t300ctl.py:338-355 | unchanged if the include is there; fails without a Macro.cfg include; else the include right after the first one |
| `PrinterPatch.SecondCallFindsIt` | bin/t300ctl.py:346-354 | a second call finds the inserted include exactly if the Macro.cfg line had a line ending; without one both end up on one line |
| `PrinterPatch.KnobIsLost` | bin/t300ctl.py:338-355 | for a file that is one unended Macro.cfg include and the default macro file, the second call does not find the include |
| `Touchscreen.MergeFields` | t300_mainline/touchscreen_policy.py:419-424 | the merged request asks for exactly what either asks for, each listed field once, None meaning all |
| `Touchscreen.ReviewObjects` | t300_mainline/touchscreen_policy.py:427-457 | accepted exactly with 1 to 32 entries that are synthetic, or allowed with well-formed fields; then each upstream object is asked for exactly the union of the requests folded onto it |
| `Touchscreen.FieldsExactly` | t300_mainline/touchscreen_policy.py:443-448 | well-formed fields are all of them, or at most 64 names of 1 to 128 characters |
| `Touchscreen.FoldOne` | t300_mainline/touchscreen_policy.py:440-452 | folding one more entry keeps that union |
| `Touchscreen.LegacyStatus` | t300_mainline/touchscreen_policy.py:489-520 | the view has every reported name, every synthetic name, and every alias whose object was reported; aliases equal their object; only toolhead and configfile are edited |
| `Touchscreen.ReviewSettings` | t300_mainline/touchscreen_policy.py:504-519 | the sections that may be offered stay as they are and the others go; only the printer section is extended |
| `Touchscreen.WithDecel` | t300_mainline/touchscreen_policy.py:497-502 | a derived max_accel_to_decel never replaces a reported field |
| `Touchscreen.TranslateResponse` | t300_mainline/touchscreen_policy.py:523-533 | statuses of replies and updates are shown that way; identifier, version and the rest of the envelope are untouched |
| `Touchscreen.BridgeSeesWhatItAsked` | t300_mainline/touchscreen_policy.py:427-533 | after the forwarded query is answered and translated, the bridge finds every name it asked for, aliases equal to their object, synthetic names with their value, and every requested field with the printer's value (the configfile settings edited) |
| `Touchscreen.BridgeSeesSettings` | t300_mainline/touchscreen_policy.py:495-519 | the bridge is shown no macro but the reviewed one, every other section, and in each section every field with the value the printer reported |
| `Touchscreen.BridgeSeesDecel` | t300_mainline/touchscreen_policy.py:497-519 | the toolhead and the printer section are shown with the reported limit, or else with max(0, max_accel * (1 - minimum_cruise_ratio)) where both are numbers, and with no other new field; every other object and shown section is as reported |
| `Touchscreen.MacrosAreHidden` | t300_mainline/touchscreen_policy.py:506-512 | a macro section is hidden, whatever its letter case, unless it is the reviewed one |
| `Touchscreen.SyntheticsStayLocal` | t300_mainline/touchscreen_policy.py:438-441 | no synthetic or alias name is ever forwarded |
| `Timelapse.StoreKeeps` | mainline/moonraker/t300_timelapse.py:276-281 | storing a shot under a free name keeps every shot in custody and overwrites nothing |
| `Timelapse.RetainKeeps` | mainline/moonraker/t300_timelapse.py:294-316 | moving frames to a new retained directory, even part of them, keeps every shot in custody |
| `Timelapse.RenderSetIsNumbered` | mainline/moonraker/t300_timelapse.py:408-428 | a frame set that can be rendered is numbered 1 to n with no other name in it |
| `Timelapse.EveryFrameIsInput` | mainline/moonraker/t300_timelapse.py:408-428 | every frame of such a set is an input of the video |
| `Timelapse.RenderKeeps` | mainline/moonraker/t300_timelapse.py:445-637 | a render keeps every shot in custody and overwrites nothing unless it unlinks a video it did not write |
| `Timelapse.RenderOverwritesNothing` | mainline/moonraker/t300_timelapse.py:445-637 | no end of a render overwrites anything, and older videos stay exactly unless one of them is unlinked |
| `Timelapse.UnlinkLosesShots` | mainline/moonraker/t300_timelapse.py:611-614 | unlinking a video ends the custody of a shot exactly if that video alone held one |
| `Timelapse.CallKeeps` | mainline/moonraker/t300_timelapse.py:247-637 | no call overwrites anything; a call takes an older video exactly if it is a render that gets to look for a name, the first name it cannot ask about is taken, and the unlink works; custody ends exactly if that video alone held a shot: all to be seen before the call |
| `Timelapse.ProbeLosesShot` | mainline/moonraker/t300_timelapse.py:486-614 | a state with every shot in custody, and a render from it that loses one |
| `Timelapse.SessionKeeps` | mainline/moonraker/t300_timelapse.py:247-637 | over any session: nothing is overwritten, a video is published only by a render that passed both verifications, in order and on record, videos go exactly in the renders that lose one, and every shot stays in custody throughout if and only if no render of the session ends the custody of one |
| `Timelapse.CallVerifies` | mainline/moonraker/t300_timelapse.py:553-573 | a call publishes a video only as a render whose partial file and whose moved file both passed, recorded in that order |
| `Timelapse.SessionRecords` | mainline/moonraker/t300_timelapse.py:553-573 | if every published video has both verifications on record, one after the other, so it is after every call of a session |
| `Timelapse.T300Timelapse.CallNewframe` | mainline/moonraker/t300_timelapse.py:189-205 | a capture is scheduled exactly when enabled, idle, below the frame limit and with a ready stick; the limit or a stick that is not ready turns captures off |
| `Timelapse.T300Timelapse.WriteAtomic` | mainline/moonraker/t300_timelapse.py:228-245 | an existing name is refused; otherwise the file is there whole or not at all, even when the call raises |
| `Timelapse.T300Timelapse.NewFrame` | mainline/moonraker/t300_timelapse.py:247-292 | stores the camera's picture under the next name exactly if the stick is ready and has room below the limit, the picture is good, the name is free and the write gets that far; counts it exactly if the write also returns; the limit, a stick that is not ready or no room turns captures off |
| `Timelapse.T300Timelapse.Retain` | mainline/moonraker/t300_timelapse.py:304-314 | frames at most move, each under its name, into one new directory; all of them exactly if it can be made, every frame is a regular file and every move works |
| `Timelapse.T300Timelapse.Cleanup` | mainline/moonraker/t300_timelapse.py:294-316 | nothing but that happens to files; the counter returns to zero exactly if the stick is not ready (and then the frames stay), there are no frames, or all of them were retained; a retaining that fails turns captures off |
| `Timelapse.T300Timelapse.FreeName` | mainline/moonraker/t300_timelapse.py:487-490 | the search ends, with the first name that is not taken, or with the first it cannot ask about; every name passed is taken and answered |
| `Timelapse.T300Timelapse.RenderFrames` | mainline/moonraker/t300_timelapse.py:408-428 | the inputs are the frames in number order, within the frame limit |
| `Timelapse.T300Timelapse.RemoveInputs` | mainline/moonraker/t300_timelapse.py:578-585 | exactly the frames whose removal works go, and frames removed plus frames left is the number of inputs |
| `Timelapse.T300Timelapse.RenderTo` | mainline/moonraker/t300_timelapse.py:492-637 | encode, verify, move, verify again, commit: verified exactly if all of them work, with both verifications on record in order; else nothing changed, or its own unverified video is left |
| `Timelapse.T300Timelapse.Render` | mainline/moonraker/t300_timelapse.py:445-637 | verified exactly if the render gets to a free name and everything after works, both verifications included; the frames left are then exactly those that could not be removed; an older video is unlinked exactly under the condition of CallKeeps |
| `Timelapse.RenderIsOver` | mainline/moonraker/t300_timelapse.py:633-637 | a render that is over lets the next one begin, unless it left a partial file that cannot be removed |
| `Timelapse.StuckStays` | mainline/moonraker/t300_timelapse.py:446-449 | after such a one every render is refused without an effect, whatever other calls come in between |
| `Timelapse.T300Timelapse.Session` | mainline/moonraker/t300_timelapse.py:247-637 | every step of a session of captures, clean-ups and renders with any failures is the call made, and SessionKeeps holds of it |

## Left out

- Tokenising: regular expressions, `shlex`, comment stripping and Klipper's own parsing. The scanner starts from parsed commands; decoding and `_parse_line` are an unknown function of the raw line.
- Rounding: numbers are exact reals, so float and Decimal rounding, Decimal context precision and underflow are not modelled.
- GcodeSafety.FlowIsBounded: arcs (G2, G3) are checked at their end points and by chord only, as the scanner does, so nothing is claimed about the path between.
- What Klipper does with START_PRINT, END_PRINT, PAUSE, M600 and the purge; the machine of `GcodeSafety` is the scanner's own reading of the words, and starts anew at START_PRINT.
- SHA-256 is taken as injective: a digest is the content it was computed from. Configuration and bundle digests are identifiers.
- Symbolic links, ownership, modes, inode and device checks, fsync and directory syncs.
- The order in which the daemon visits candidates (any order is allowed), the text of findings, approvals and rejections, and partial snapshot files that a failed admission removes.
- AdmissionDaemon.AdmissionDaemon.AdmitGcode: the spool ceiling and the free-space reserve are one yes-or-no answer of the outside world.
- Signals, KeyboardInterrupt and power loss between two statements of one call. A reboot happens between commands.
- Commissioning.CandidateController.HostTestStart, and all other transitions: a marker or journal write either takes effect and returns, or raises without effect. An error after the rename of the temporary file is modelled for timelapse frames only.
- ConfigDeploy.Deployer.ApplyBundle: unpacking and verifying a bundle is one yes-or-no answer.
- Evidence files are their checked fields; their JSON form, the manifest and identity checks, and the `status` report are not modelled.
- Simultaneous commands of two processes, and gate checks in the middle of a command other than those of its own start calls, are not modelled; the source does not exclude them.
- Systemd beyond gates, conflicts and failures: mounts pulled in by other units, ordering, and `t300-host-mcu.service`.
- PrinterPatch.PatchIsIdempotent: texts with a lone carriage return or another Unicode line separator are excluded, and white space is space and tab.
- ConfigTransaction.WaitForRestartReady: the poll of the server is a given sequence of answers with clock readings; network code is not modelled.
- ConfigAudit.FirstSection: the raw text itself, and the path and line numbers of the section that owns it, are represented by that section's place in the listing.
- ConfigAudit.LoadTree: which files a pattern matches is a given function of the pattern; choosing the entry file is not modelled.
- Touchscreen.WithDecel: a JSON true or false in place of a number, which Python takes for 1 or 0, is not modelled as a number.
- Touchscreen.ReviewObjects: the JSON-RPC envelope checks of requests, and the per-command limits for G-code scripts, file names and history, each settled by reading one branch.
- Timelapse.T300Timelapse.Session: calls run one at a time; the parts of the timelapse component inherited from upstream, ffmpeg arguments and settings validation are not modelled.
- Lock, manifest and profile validators, staging and provisioning, firmware builds, imaging, the serial console and command-line parsing: long field checks or input and output with shallow claims.
