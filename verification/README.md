# UWAS: verified models of its stateful components

UWAS is a single-binary web server and hosting panel. This project models, in
Dafny, the parts of it whose guarantees depend on whole runs rather than on one
call, and proves those guarantees.

| files | component |
|---|---|
| `Process.dfy`, `Supervisor.dfy`, `Restarts.dfy`, `StaleExits.dfy` | the app supervisor: Start, Stop, Register, exit monitors, back-off timers |
| `Ports.dfy` | the supervisor's port assignment |
| `Addresses.dfy`, `Blocker.dfy`, `Firewall.dfy`, `Detect.dfy`, `Admission.dfy`, `Escalation.dfy` | the autoblocker: block list and its sharded view, firewall queue, per-address counters, block durations |
| `Auth.dfy`, `Passwords.dfy`, `Revocation.dfy`, `AuthManager.dfy`, `Lockout.dfy` | users, API-key indexes, sessions over restarts, login lockout |
| `Text.dfy`, `Calendar.dfy`, `Cron.dfy`, `CronMeaning.dfy`, `CronSchedule.dfy` | the cron evaluator of the backup scheduler |
| `Bandwidth.dfy` | bandwidth counters, once-only alerts, billing of responses |
| `RingBuffer.dfy`, `Audit.dfy` | the ring buffer and the persisted audit trail |
| `Totp.dfy` | one-time use of TOTP codes |
| `Options.dfy`, `Durations.dfy` | an option type and units of time |

How the models are built:

- A critical section is one step; work done outside the lock is a step of its
  own, so interleavings are runs over sequences of events. Each state machine is
  a pure step function. The objects the program updates in place are classes
  with the loops of the original; their methods are proved equal to the
  functions the steps are made of, or state the whole new state outright.
- Time is an integer handed to each step. Channels, children, tokens, salts and
  keys are fresh identities. bcrypt, SHA-256 and HMAC are abstract: hashes carry
  a fresh salt, fingerprints and key hashes are injective. JSON is an abstract
  pair of functions that undo one another.
- Go's 64-bit arithmetic is written out where it can wrap (`Cron.Wrap64`,
  `Escalation.Loop`); the cron term matcher is total on every string.

Where the code does something else than one would expect, the model follows the
code. A lemma gives a run or an input that shows it, and another says exactly
when the code does meet the property:

- A firewall rule can be orphaned when a block is lifted between its map update
  and the queueing of its add (`Firewall.LateAddOrphansRule`), and by a dry-run
  detection over an enforced block, which `trip` lets through if a manual block
  lands after its test or the block has lapsed and is not swept yet
  (`Firewall.DryRunOrphansRule`). A step keeps the rules clean exactly when it is
  orderly (`Firewall.StepKeepsNoOrphanIffOrderly`).
- A monitor checks its stop channel before it takes the lock, so an old exit can
  be counted against the next run (`StaleExits.StaleExitIsBookedOnNextRun`): it
  happens exactly when an exit is pending at the Start
  (`StaleExits.StartIsCleanIff`).
- The weekday range `0-7` is rewritten to `0-0`, and a `7` with leading zeros is
  not folded (`CronSchedule.RewriteOfOneTerm`, `CronSchedule.RewriteIsExactOnWeek`).
- The day rule differs from the crontab utility of POSIX.1-2017 when month and
  weekday are both restricted (`CronSchedule.FridaysInFebruary`,
  `CronSchedule.CronIsPosixIff`), although the comment in the code names it.
- A leap-day schedule is refused as never firing unless a 29 February is at most
  731 days away (`CronSchedule.LeapDayRunsIff`).
- A TOTP step can be accepted twice exactly if its burn comes after the step has
  left the window (`Totp.ReplayableIffLate`).
- A session written before fingerprints existed survives a password change and a
  restart (`Revocation.BareTokenOutlivesResetInRun`); a saved password change
  revokes a token for good exactly if it has a fingerprint
  (`Revocation.ResetRevokesIffFingerprinted`). Deletions are final.
- Disabling an account holds until it is enabled again
  (`Revocation.DisableHoldsUntilEnable`); then a stale sessions file revives its
  tokens (`Revocation.EnableRevivesToken`).
- A port scan that runs out of attempts hands out an untested port
  (`Ports.ExhaustedScanCollides`, `Ports.ExhaustedRegisterIff`,
  `Ports.ExhaustedReplaceIff`).
- Block durations past 2^62 ns wrap (`Escalation.LongBaseWrapsToZero`,
  `Escalation.EscalationIsCappedIffNoWrap`).

## Model

| member | source | states |
|---|---|---|
| `Processes.ComputeBackoff` | internal/apps/manager.go:91-103 | the doubling loop yields min(2^n, 300) seconds for every count n ≥ 1, and 2 s otherwise |
| `Processes.Process.constructor` | internal/apps/manager.go:299-309 | a registered record starts idle on an open channel |
| `Processes.Process.TryStart` | internal/apps/manager.go:359-389 | refused exactly while disabled or running; otherwise a fresh channel and a fresh crash budget |
| `Processes.Process.MarkStopped` | internal/apps/manager.go:417-431 | marks the record stopped, names the channel to close only the first time, and names the child to kill |
| `Processes.Process.TryRegister` | internal/apps/manager.go:1052-1072 | a spawned child is registered exactly if the record is not stopped and still on the channel of this start |
| `Processes.Process.ClearCmd` | internal/apps/manager.go:433-442 | clears the registered child only if it is still that one |
| `Processes.Process.NoteExit` | internal/apps/manager.go:1176-1219 | books an exit: counter, giving up at ten, delay of the scheduled restart |
| `Supervisor.TaskStepIsLawful` | internal/apps/manager.go:971-1243 | what any step of a start, monitor or stop may change: never reopens a channel, registers only after a passed check, drops a registered child only after it exited, keeps a held child held unless it killed it |
| `Supervisor.StepKeepsInv` | internal/apps/manager.go:200-487 | every step of every operation keeps the supervisor's invariant: fresh identities, one holder per channel, every registered child monitored, every live child accounted for |
| `Supervisor.RunKeepsInv` | internal/apps/manager.go:359-487 | the invariant holds after every interleaving |
| `Supervisor.CheckFindsNoChild` | internal/apps/manager.go:1052-1072 | a registration check that passes finds no child registered, since that child's monitor would be a second holder of the channel |
| `Supervisor.NoChildIsLost` | internal/apps/manager.go:971-1072 | in every run each live child is registered under its app, or a task is about to check or kill it |
| `Supervisor.RegistrationOverwritesNothing` | internal/apps/manager.go:1052-1072 | in every run a registration replaces no registered child |
| `Supervisor.RegisteredChildIsOnCurrentChannel` | internal/apps/manager.go:417-487 | in every run `stopped` holds exactly when the current channel is closed, and the registered child is monitored under that channel |
| `Supervisor.StoppedIsDown` | internal/apps/manager.go:417-431 | an app whose record is stopped, or that is not registered, has no start under way under any record |
| `Supervisor.StoppedStaysDown` | internal/apps/manager.go:445-487 | from a stop to the app's next Start nothing registers: no record of that name, those Register or Load put in meanwhile included, gains a child, whatever else runs |
| `Supervisor.CrashStep` | internal/apps/manager.go:1176-1219 | how one step moves the crash counter and the give-up flag |
| `Supervisor.AtMostNineRestarts` | internal/apps/manager.go:1176-1243 | in an unbroken series of quick exits without Start: at most nine restarts, counted exactly, and giving up is absorbing |
| `Supervisor.UndisturbedStartRegisters` | internal/apps/manager.go:359-398 | a start left alone ends with exactly its child live, registered and watched |
| `Supervisor.UndisturbedStopClears` | internal/apps/manager.go:417-443 | a stop left alone kills exactly the registered child, clears the record and leaves the channel closed |
| `Restarts.ExitIsBooked` | internal/apps/manager.go:1176-1219 | in numbers: within 30 s of the start one crash more, else none; given up at ten; otherwise a restart after 2 s, or min(2^n, 300) s after the n-th crash; never for an app that does not restart by itself |
| `Restarts.CrashedAppComesBack` | internal/apps/manager.go:1150-1243 | in every reachable state: an app that restarts by itself and dies with fewer than nine crashes behind it has, once its monitor was left alone for the delay, a new child live, registered and watched under the same channel, and nothing else has changed |
| `Restarts.TimerWaits` | internal/apps/manager.go:1221-1237 | before it is due, and while its channel is open, the timer stays as it is |
| `Restarts.StoppedTimerEnds` | internal/apps/manager.go:1221-1237 | a timer whose channel was closed ends without a restart |
| `Restarts.ExitWithoutRestart` | internal/apps/manager.go:1183-1219 | an app that does not restart by itself, was given up, or crashes for the tenth time stays down |
| `Restarts.LateStartLeavesNothing` | internal/apps/manager.go:982-1072 | a start that was stopped or superseded spawns nothing, or kills the child it has spawned |
| `Restarts.StartIsRefusedIff` | internal/apps/manager.go:359-373 | Start changes nothing exactly if the app is not registered, disabled or running |
| `Restarts.RegisterAdds` | internal/apps/manager.go:263-313 | a registration adds one idle record with the given flags and an open channel, and changes nothing else |
| `Restarts.RegisterReplaces` | internal/apps/manager.go:234-259 | under a name in use it first does what removing the app does |
| `Restarts.UnregisterAndReload` | internal/apps/manager.go:200-218 | removing an app stops its record, closes its channel and kills its child; reading its file again changes its disabled flag only |
| `StaleExits.StartIsCleanIff` | internal/apps/manager.go:1160-1200 | for every reachable state and accepted Start: every exit booked on the record until its next Start comes from a monitor of the new run, exactly if no exit of the record was pending at the Start |
| `StaleExits.CleanRunsBookCurrent` | internal/apps/manager.go:1160-1200 | a record whose pending and unseen exits belong to its run or to closed channels books only exits of its run |
| `StaleExits.StaleExitIsBookedOnNextRun` | internal/apps/manager.go:1160-1200 | a run from an empty manager after which an exit of the first run is counted against the second, which has not spawned yet |
| `Ports.AllocationIsFirstUsable` | internal/apps/manager.go:317-339 | the scan returns the first port from the cursor on that no app exposes and that is free; it returns the untested port after its last attempt exactly when there is none |
| `Ports.PortManager.AllocateFreePort` | internal/apps/manager.go:320-339 | the nested loops compute that scan and move the cursor past it |
| `Ports.PortManager.Register` | internal/apps/manager.go:234-313 | keeps a requested port nobody else exposes, scans otherwise, replaces the earlier record |
| `Ports.PortManager.EnsureStartPortAvailable` | internal/apps/manager.go:489-524 | replaces a bound port; a failed save leaves every record as it was |
| `Ports.PortManager.AdoptDiscoveredPort` | internal/apps/manager.go:879-912 | adopts a port for the current record only, if no other app exposes it; a failure changes nothing |
| `Ports.StepKeepsDistinct` | internal/apps/manager.go:263-339 | every registration, refresh, replacement, adoption, rollback and removal whose scan does not run out keeps primary ports positive and pairwise distinct |
| `Ports.PortsStayDistinct` | internal/apps/manager.go:489-524 | so do whole runs |
| `Ports.ExhaustedRegisterIff` | internal/apps/manager.go:263-339 | after an exhausted scan, for no requested port or one that collides, the ports stay distinct exactly if no other app has the port 1000 past the cursor |
| `Ports.ExhaustedReplaceIff` | internal/apps/manager.go:489-524 | the same for a replacement at start |
| `Ports.ExhaustedScanCollides` | internal/apps/manager.go:320-339 | two registrations that end with the same port when nothing can be bound |
| `Ports.RegisterGivesPort` | internal/apps/manager.go:263-286 | a requested port no other app has or declares is kept; otherwise the app gets the first free and unclaimed port from the cursor on; other apps stay as they are |
| `Ports.ReplaceGivesPort` | internal/apps/manager.go:489-524 | a start keeps a free port; a saved replacement is free and unclaimed, an unsaved one is taken back |
| `Ports.AdoptTakesPortIff` | internal/apps/manager.go:879-912 | a discovered port is taken exactly if the record is current, the port unclaimed and the save works |
| `Ports.RefreshAndUnregister` | internal/apps/manager.go:200-218 | reading the file again changes the declared ports only, removing an app only the map |
| `Addresses.ShardIndex` | internal/autoblock/detect.go:11-26 | the hash loop computes FNV-1a over the sixteen bytes, folded to a shard |
| `Addresses.NeighboursAreSpread` | internal/autoblock/detect.go:8-26 | addresses that differ in their last byte alone lie in different shards |
| `BlockList.Blocker.Blocked` | internal/autoblock/autoblock.go:362-378 | the sharded look-up with its zero-count shortcut answers exactly: enabled, not safe, and in the authority without dry run |
| `BlockList.Blocker.Safe` | internal/autoblock/autoblock.go:343-357 | true exactly if some prefix covers the address |
| `BlockList.Blocker.Publish` | internal/autoblock/autoblock.go:411-429 | rebuilds shards and counter to mirror exactly the enforced entries |
| `BlockList.Blocker.ViewAdd` | internal/autoblock/autoblock.go:433-441 | adds one address to its shard and counts it once |
| `BlockList.Blocker.ViewDel` | internal/autoblock/autoblock.go:444-452 | the inverse |
| `BlockList.Blocker.TrimHistory` | internal/autoblock/autoblock.go:458-471 | forgets only unblocked addresses, and stops at nine tenths of the limit |
| `BlockList.Blocker.Apply` | internal/autoblock/apply.go:21-65 | an automatic block or its dry-run record; the view mirrors the authority; the add is offered to the queue |
| `BlockList.Blocker.Trip` | internal/autoblock/detect.go:223-236 | an address with a block that has not lapsed is left alone; any other is blocked one level up, for the duration of that level |
| `BlockList.Blocker.BlockManual` | internal/autoblock/apply.go:69-111 | refused exactly for safe addresses; enforced even in dry run; permanent for a negative duration; one level up |
| `BlockList.Blocker.Unblock` | internal/autoblock/apply.go:113-133 | removes entry and history, and queues or parks the removal of the rule |
| `BlockList.Blocker.LiftExpired` | internal/autoblock/apply.go:224-236 | the locked half of expire lifts exactly the blocks whose term is up |
| `BlockList.Blocker.Expire` | internal/autoblock/apply.go:224-246 | the whole of expire: each lifted block has its removal queued or parked, parked removals are retried, and some stay parked only if the queue is full |
| `BlockList.Blocker.LiftSafeBlocks` | internal/autoblock/autoblock.go:299-313 | lifts and forgets exactly the blocked addresses that are safe |
| `BlockList.Blocker.SetWhitelist` | internal/autoblock/autoblock.go:278-341 | the always-safe ranges stay in the list; after it no safe address is blocked and no other block is touched; each lifted block has its removal queued or parked |
| `BlockList.DefaultsByOctet` | internal/autoblock/autoblock.go:326-341 | exactly which IPv4 addresses are always safe, by their octets |
| `BlockList.DefaultsBySixteenBits` | internal/autoblock/autoblock.go:326-341 | exactly which other addresses are always safe |
| `BlockList.QueuedAllKeeps` | internal/autoblock/autoblock.go:315-318 | queueing the removals of a list loses none and adds none |
| `BlockList.Blocker.QueueRemove` | internal/autoblock/apply.go:248-265 | a removal is queued, or parked when the queue is full |
| `BlockList.Blocker.RetryPendingRemoves` | internal/autoblock/apply.go:266-286 | each parked removal is queued, dropped because the address is enforced again, or kept because the queue is full |
| `BlockList.Blocker.SplitStored` | internal/autoblock/apply.go:476-506 | which stored blocks return after a restart, and which leave a rule to remove |
| `BlockList.Blocker.Restore` | internal/autoblock/apply.go:448-506 | the restored list, mirrored by the view, with removals parked for dropped blocks |
| `Firewall.StepKeepsRules` | internal/autoblock/apply.go:302-359 | every step keeps: a covered block has its rule, or its add is queued or running |
| `Firewall.NoRuleIsLost` | internal/autoblock/apply.go:21-65 | no lost rule, in every interleaving of map updates, queueing, retries and the worker |
| `Firewall.StepKeepsNoOrphan` | internal/autoblock/apply.go:313-346 | every orderly step keeps: an address without an enforced block has no rule and no add that is not followed by a removal queued, parked or under way |
| `Firewall.AcceptedAddKeepsNoOrphanIffTimely` | internal/autoblock/apply.go:41-65 | an accepted add keeps that exactly when the block still stands or a removal is still on its way |
| `Firewall.DryRunKeepsNoOrphanIffNoTrace` | internal/autoblock/apply.go:29-42 | a dry-run detection keeps that exactly when it replaces no enforced block, or one without a rule and without an add queued or running that no removal follows |
| `Firewall.StepKeepsNoOrphanIffOrderly` | internal/autoblock/apply.go:313-346 | over all events: exactly the orderly steps keep it |
| `Firewall.NoRuleIsOrphaned` | internal/autoblock/apply.go:113-133 | no orphan rule over every orderly run |
| `Firewall.UninterruptedRunsAreOrderly` | internal/autoblock/autoblock.go:299-322 | with dry run off and each map update queued in the same step, every run is orderly |
| `Firewall.DrainedRulesMatchBlocks` | internal/autoblock/apply.go:302-346 | after a drained orderly run, rules exist for all covered blocks and for enforced blocks only |
| `Firewall.WorkerDrains` | internal/autoblock/apply.go:302-346 | left alone the worker empties the queue in two steps an operation and changes only rules |
| `Firewall.EverythingDrains` | internal/autoblock/apply.go:266-346 | with no caller in between, the worker and the retries drain queue, worker and parked removals from every state |
| `Firewall.LateAddOrphansRule` | internal/autoblock/apply.go:41-65 | a run that ends drained with a rule for an unblocked address |
| `Firewall.DryRunOrphansRule` | internal/autoblock/detect.go:223-236 | two runs that strand the rule of an enforced block under a dry-run entry: a manual block after the test of trip, and a lapsed block not yet swept |
| `Detect.Shard.WithTrack` | internal/autoblock/detect.go:29-60 | one event: sweep of a full shard, new window that keeps the gauge, action, and the snapshot |
| `Detect.Shard.ConnOpened` | internal/autoblock/detect.go:68-131 | who is served, which breaches are reported and whether the slot goes back, from the counters of the snapshot |
| `Detect.Shard.ConnClosed` | internal/autoblock/detect.go:138-167 | the slot goes back; an abort is reported exactly if the aborts of the window are over the limit |
| `Detect.Shard.RecordHTTP` | internal/autoblock/detect.go:172-219 | each signal is counted on its own and reported exactly over its positive limit |
| `Detect.OthersStay` | internal/autoblock/detect.go:29-60 | an event or a collection drops another record only if it is quiet, an event only in a full shard and at most once a second |
| `Detect.Shard.SweepQuiet` | internal/autoblock/autoblock.go:149-155 | removes exactly the records with nothing open and nothing recent |
| `Detect.Shard.ReleaseSafe` | internal/autoblock/detect.go:138-152 | hands a slot back without creating a record |
| `Detect.TouchGauge` | internal/autoblock/detect.go:29-60 | what one event does to the gauge of every address, through rolls, sweeps and full shards |
| `Detect.StepGauge` | internal/autoblock/detect.go:68-167 | one connection event moves gauge and open connections so that the gauge never exceeds them, and alike if the event is remembered and the address not safe |
| `Detect.GaugeNeverExceedsOpen` | internal/autoblock/detect.go:68-167 | over every run the gauge never exceeds the open connections |
| `Detect.GaugeEqualsOpen` | internal/autoblock/detect.go:68-167 | it equals them for an address that is never safe and whose shard never fills |
| `Detect.IdleAddressIsReclaimed` | internal/autoblock/apply.go:290-298 | a quiet address with nothing open is gone after the next collection |
| `Detect.TableStaysBounded` | internal/autoblock/detect.go:29-60 | no run outgrows the limit of a shard |
| `Admission.TouchCounts` | internal/autoblock/detect.go:29-60 | one event keeps every counter equal to the number of such events in the window |
| `Admission.CountersAreWindowEvents` | internal/autoblock/detect.go:29-60 | in every run connections, aborts, WAF, rate and not-found counters are the events of the current window, which begins with its first event |
| `Admission.RefusedOnlyOverLimit` | internal/autoblock/detect.go:108-131 | in every run a connection is refused only outside dry run and over a limit |
| `Admission.RefusedIffOverLimit` | internal/autoblock/detect.go:108-131 | for an address never safe in a shard that never fills: refused exactly if dry run is off and the connections open at its opening exceed maxConcurrent or the openings of the window maxConnections, each if positive |
| `Admission.AnswersAtOnce` | internal/autoblock/detect.go:68-84 | safe addresses are served without a trace, blocked ones turned away, and what is not refused is served |
| `Escalation.Normalize` | internal/autoblock/autoblock.go:88-115 | 15 minutes and 24 hours where unset, the maximum raised to the base, any other pair kept |
| `Escalation.Escalated` | internal/autoblock/detect.go:239-260 | the loop with its 64-bit products |
| `Escalation.EscalationIsCapped` | internal/autoblock/detect.go:239-260 | for every level and every maximum below 2^62 ns: min(base·4^(level-1), maximum), never decreasing in the level |
| `Escalation.EscalationIsCappedIffNoWrap` | internal/autoblock/detect.go:245-257 | for every pair Normalize yields: so for all levels exactly when none of the first 32 durations wraps below the maximum |
| `Escalation.LongBaseWrapsToZero` | internal/autoblock/detect.go:245-257 | a base of 2^62 ns wraps to a duration of zero, also with the maximum Normalize raises to it |
| `Auth.StepKeepsInv` | internal/auth/manager.go:454-502 | every step keeps both secondary indexes equal to the name map and all identities fresh |
| `Auth.RunKeepsInv` | internal/auth/manager.go:1002-1070 | so does every run, restarts included |
| `Auth.StepKeepsCurrent` | internal/auth/manager.go:881-955 | every step but a restart keeps each session on its user's current password |
| `Auth.RebuiltIsIndexed` | internal/auth/manager.go:1181-1213 | loading a stored users file rebuilds consistent indexes |
| `Auth.RebuiltIsLoad` | internal/auth/manager.go:1181-1213 | and holds exactly the stored users |
| `Auth.KeyLookupIsScan` | internal/auth/manager.go:691-743 | in every reachable state the index look-up accepts exactly the keys and users a scan over enabled users would |
| `Auth.FailedCreateRollsBack` | internal/auth/manager.go:486-502 | a creation whose save fails leaves all indexes as they were |
| `Auth.FailedRegenerateRollsBack` | internal/auth/manager.go:1029-1070 | so does a key rotation |
| `Auth.SessionsStayCurrent` | internal/auth/manager.go:560-651 | over every run without a restart each session in memory belongs to a present, enabled user on the password it was issued under |
| `Auth.LoginChecksCurrentPassword` | internal/auth/manager.go:611-651 | a session is issued only to an enabled user whose current password is the one presented |
| `Passwords.UpdateChangesPassword` | internal/auth/manager.go:881-940 | in every reachable state an update sets the new password under a fresh salt and the requested flag, saved or not, and leaves id, name, key and every other account alone |
| `Passwords.CommitChangesPassword` | internal/auth/manager.go:1140-1159 | a password change takes effect exactly if the account is still the one compared, on that password |
| `Passwords.ChangePasswordIff` | internal/auth/manager.go:1110-1159 | left alone, exactly if the current password was presented |
| `Passwords.LoginSucceedsIff` | internal/auth/manager.go:560-651 | in every reachable state a login left alone gets a session exactly if the account is enabled and its current password was presented; the token validates until it runs out |
| `Passwords.NewPasswordLogsIn` | internal/auth/manager.go:905-940 | after a reset exactly the new password is admitted, if the account is enabled |
| `Passwords.NewPasswordSurvivesRestart` | internal/auth/manager.go:1181-1213 | after a saved one also over a restart |
| `Passwords.CreateMakesAccount` | internal/auth/manager.go:454-502 | a new account is enabled with its password and filed |
| `Passwords.DeleteRemovesAccount` | internal/auth/manager.go:1002-1025 | a deleted account is gone, from the file too if it was written |
| `Passwords.RestartRestoresAccounts` | internal/auth/persist.go:126-152 | a restart brings back exactly the filed accounts and the sessions of the file |
| `Passwords.RegenerateSwapsKeys` | internal/auth/manager.go:1029-1070 | after a rotation the new key finds the account and the old one nobody |
| `Passwords.AcceptsIff` | internal/auth/manager.go:746-773 | a token is accepted exactly if its session has not run out and an enabled account of that id is on its password, or it has no fingerprint |
| `Passwords.SessionsGoOneByOne` | internal/auth/manager.go:776-782 | looking, logging out and sweeping drop exactly the refused token, that token, and those run out |
| `Revocation.StepKeepsDead` | internal/auth/manager.go:881-955 | a session backed by no present or stored user stays so through every step |
| `Revocation.DeadNeverValidates` | internal/auth/manager.go:746-773 | and never validates again |
| `Revocation.RetiredIsDead` | internal/auth/manager.go:1110-1159 | a saved deletion makes every session of the user such a session, a saved password change those with a fingerprint |
| `Revocation.RevokedTokenNeverValidates` | internal/auth/persist.go:126-199 | a token from before a saved deletion, or, with a fingerprint, from before a saved password change, never validates again, through any later run and restarts on any old sessions file |
| `Revocation.ResetRevokesIffFingerprinted` | internal/auth/manager.go:105-111 | a saved password change revokes a token over every later run exactly if the token has a fingerprint |
| `Revocation.BareTokenOutlivesResetInRun` | internal/auth/manager.go:764-770 | a run from an empty installation in which a session without one validates after a password change and a restart |
| `Revocation.DisableHoldsUntilEnable` | internal/auth/manager.go:764-770 | after a saved disable no earlier token of the user validates in any run that does not enable the account, restarts included |
| `Revocation.EnableRevivesToken` | internal/auth/persist.go:126-152 | and enabling it revives every token its password still backs, after a restart on a file that holds it |
| `Revocation.DisabledTokenRevivesInRun` | internal/auth/persist.go:126-152 | such a run from an empty installation |
| `AuthManager.Manager.CreateUserLocked` | internal/auth/manager.go:454-502 | in place: inserted in three maps, or in none if the name exists or the save fails |
| `AuthManager.Manager.RegenerateAPIKey` | internal/auth/manager.go:1029-1070 | moves the index entry, or restores key and index if the save fails |
| `AuthManager.Manager.AuthenticateAPIKey` | internal/auth/manager.go:691-743 | returns an enabled user with this key, and none only if there is none |
| `AuthManager.Manager.InvalidateUserSessions` | internal/auth/manager.go:944-955 | exactly the user's sessions go |
| `AuthManager.Manager.UpdateUser` | internal/auth/manager.go:881-940 | in place: hash and flag through the shared object, and the sessions gone after a new password or a disable |
| `AuthManager.Manager.DeleteUser` | internal/auth/manager.go:1002-1025 | out of all maps, and exactly the user's sessions go |
| `AuthManager.Manager.InsertSession` | internal/auth/manager.go:633-648 | the re-check under the lock: same object, enabled, same password; then the session is in and the user keeps the newest fifty |
| `AuthManager.Manager.EvictOldestSessions` | internal/auth/manager.go:661-680 | the other users' sessions stay, and of this user's exactly the newest up to the limit |
| `AuthManager.Manager.ValidateSession` | internal/auth/manager.go:746-773 | accepts exactly live sessions that an enabled user's current password backs, and drops the others |
| `Lockout.LoginGuard.IsLockedOut` | internal/auth/manager.go:345-360 | trims the list to the window and tests its length |
| `Lockout.LoginGuard.RecordFailedAttempt` | internal/auth/manager.go:362-366 | adds one failure to the key and touches no other |
| `Lockout.LoginGuard.ClearFailedAttempts` | internal/auth/manager.go:369-373 | forgets the key and no other |
| `Lockout.LoginGuard.CleanupLoginAttempts` | internal/auth/manager.go:307-329 | forgets exactly the keys with nothing in the window |
| `Lockout.StepKeeps` | internal/auth/manager.go:560-616 | every step keeps each key's list a suffix of its failures cut no later than the window |
| `Lockout.OutcomeIsRecorded` | internal/auth/manager.go:596-616 | a failure is added to the key, a success clears it so that the next attempt is let in, other keys are not touched |
| `Lockout.SixFailuresSpanTheWindow` | internal/auth/manager.go:345-373 | for every key and run, any six failures with no clearing success between them span at least 15 minutes |
| `Lockout.RefusedOnlyWhileFailing` | internal/auth/manager.go:345-360 | a key is refused only while five failures lie within the window |
| `Cron.ParseInt` | internal/backup/backup.go:1109-1117 | the digit loop, with 64-bit wrap-around |
| `Cron.MatchCronField` | internal/backup/backup.go:989-1008 | a field matches exactly when some comma-separated term does |
| `Cron.NormalizeWeekdayTerm` | internal/backup/backup.go:1074-1099 | expands stepped terms and folds 7 to 0 elsewhere |
| `Cron.NormalizeWeekdayField` | internal/backup/backup.go:1063-1072 | rewrites every term of the list |
| `Cron.Readable` | internal/backup/backup.go:926-930 | every field consists of cron characters only |
| `Cron.AcceptedIff` | internal/backup/backup.go:920-930 | refused exactly if there are not five fields or a character is no digit, star, comma, dash or slash |
| `Text.FieldsSpaced` | internal/backup/backup.go:920-920 | any blanks, of any kind and number, separate and surround fields |
| `Cron.DayMatches` | internal/backup/backup.go:946-968 | month, and day of month or weekday when both are restricted, else both |
| `Cron.FirstOfDay` | internal/backup/backup.go:970-983 | the first due minute of a firing day, given that none came before it |
| `Cron.NextCronRun` | internal/backup/backup.go:919-986 | for every expression, start day and time: the least matching minute strictly after now within 732 days; nothing exactly when the expression is refused or no such minute exists |
| `CronMeaning.MatchIsDenotes` | internal/backup/backup.go:1012-1053 | matching the text of a term computes its meaning, for all six forms, all 64-bit operands and any leading zeros |
| `CronMeaning.MatchFieldIsSelects` | internal/backup/backup.go:989-1008 | matching the text of a list computes the union of its terms |
| `CronMeaning.MatchJoined` | internal/backup/backup.go:989-1008 | a joined list matches exactly when one of its parts, itself perhaps a list, matches |
| `CronMeaning.ExpansionKeepsDays` | internal/backup/backup.go:1079-1092 | expanding any stepped term, whatever its text, keeps the weekdays it matches |
| `CronSchedule.RewriteKeepsWeekdays` | internal/backup/backup.go:1063-1107 | for every list whose spans fold well, weekday w matches the rewritten field exactly when a day 0..7 congruent to w matches the original |
| `CronSchedule.RewriteOfOneTerm` | internal/backup/backup.go:1074-1107 | on a one-term field that condition is exact, for any numbers and leading zeros |
| `CronSchedule.RewrittenField` | internal/backup/backup.go:1063-1107 | which weekdays the rewritten field of any list matches |
| `CronSchedule.RewriteIsExactOnWeek` | internal/backup/backup.go:1063-1107 | on lists over 0..7 meaning is preserved exactly when `0-7` is absent or other terms cover Monday to Saturday |
| `CronSchedule.RenderedIsAccepted` | internal/backup/backup.go:919-934 | the text of a schedule is accepted and read back as its five fields |
| `CronSchedule.FiresIsCron` | internal/backup/backup.go:946-980 | on the text of any schedule the evaluator fires exactly when month, hour and minute are selected and the day of month or the weekday is, both unless both are restricted |
| `CronSchedule.CronIsPosixIff` | internal/backup/backup.go:949-966 | on which days that agrees with the day rule of the POSIX.1-2017 crontab utility: exactly if month or weekday is a lone star, or the two agree as stated |
| `CronSchedule.FridaysInFebruary` | internal/backup/backup.go:949-966 | a schedule and days on which they differ |
| `CronSchedule.NextRun` | internal/backup/backup.go:919-986 | end to end, for every schedule of the six term forms: the earliest minute over every calendar date of the horizon at which it should run, or none exactly when there is none |
| `CronSchedule.LeapDayRunsIff` | internal/backup/backup.go:913-915 | a 29 February schedule has a run exactly for the starting dates from which a leap day of that year or the next two lies within the horizon with a selected minute still to come |
| `CronSchedule.LeapDayOutOfReach` | internal/backup/backup.go:913-915 | in the year after a multiple of four it has none |
| `Calendar.EveryDateIsWalked` | internal/backup/backup.go:939-946 | walking days visits every calendar date in its place |
| `Calendar.AddDaysOrdinal` | internal/backup/backup.go:944-944 | walking n days, over month ends and leap years, raises the closed-form day number by n |
| `Calendar.AddDaysWeekday` | internal/backup/backup.go:957-957 | walking n days turns the weekday n times |
| `Calendar.EpochIsThursday` | internal/backup/backup.go:957-957 | 1 January 1970 is a Thursday |
| `Calendar.WeekdayByDistance` | internal/backup/backup.go:957-957 | the weekday of every date is told by its signed distance from that Thursday |
| `Calendar.DistanceExists` | internal/backup/backup.go:944-944 | every date has such a distance |
| `Calendar.MonthLengths` | internal/backup/backup.go:936-944 | the lengths of the months and the leap years |
| `Bandwidth.DomainUsage.Record` | internal/bandwidth/manager.go:237-323 | windows older than 30 days or a day start anew and both take the bytes; the notices returned carry exactly the alerts this record added to each account, with the counter and limit of their window, monthly first; the flags follow the limits; a disabled limit changes nothing |
| `Bandwidth.RecordAll` | internal/bandwidth/manager.go:237-323 | over any sequence of records the notices delivered since a window began tell of the limit once exactly if it was reached and of nine tenths once exactly if a total lay between |
| `Bandwidth.AccountsRecord` | internal/bandwidth/manager.go:262-318 | the step of an account moves its window as the record does and adds exactly the alerts of this crossing |
| `Bandwidth.DomainUsage.Evaluate` | internal/bandwidth/manager.go:181-200 | block and throttle flags from counters, limits and action |
| `Bandwidth.DomainUsage.Reset` | internal/bandwidth/manager.go:407-425 | clears counters and flags |
| `Bandwidth.StepKeeps` | internal/bandwidth/manager.go:262-318 | every record, expiry and reset keeps counter and alerts honest |
| `Bandwidth.AlertsFireOnce` | internal/bandwidth/manager.go:287-318 | over every run: the counter is the bytes since the last reset; the limit alert fired once exactly if they reach the limit; the 90% alert once exactly if a running total lay in [90%, 100%) |
| `Bandwidth.ThroughBandMeans` | internal/bandwidth/manager.go:296-311 | the band counts as passed through exactly when some prefix of the records sums to at least 90% and less than the limit |
| `Bandwidth.JumpSkipsWarning` | internal/bandwidth/manager.go:296-311 | after one record over the whole band no later record passes through it |
| `Bandwidth.ResponseWriter.RecordDelta` | internal/bandwidth/manager.go:478-483 | reports exactly what was written since the last report |
| `Bandwidth.ResponseWriter.Serve` | internal/bandwidth/manager.go:478-513 | a request bills exactly the bytes it wrote, however often it flushed |
| `RingBuffers.RingBuffer.constructor` | internal/admin/ringbuf.go:19-27 | an empty buffer of positive capacity |
| `RingBuffers.RingBuffer.Append` | internal/admin/ringbuf.go:31-39 | appends to the log of the buffer |
| `RingBuffers.RingBuffer.Snapshot` | internal/admin/ringbuf.go:42-61 | the last `cap` entries in order |
| `RingBuffers.RingBuffer.Seed` | internal/admin/ringbuf.go:66-85 | replaces the contents by the last `cap` elements of the tail |
| `RingBuffers.RingBuffer.PosAndEntries` | internal/admin/ringbuf.go:91-111 | the write position and the last `cap` entries |
| `RingBuffers.RingBuffer.Since` | internal/admin/ringbuf.go:118-129 | after k appends from a position, exactly the last k modulo capacity entries |
| `Audit.ReadAuditLines` | internal/admin/audit_persist.go:70-132 | whatever the chunking: the last 500 of the earlier entries followed by those of the readable lines; a read error keeps the lines before it |
| `Audit.LinesKeepText` | internal/admin/audit_persist.go:107-131 | no text is lost or added between chunks and lines; only a read error costs the unfinished line |
| `Audit.BlankLineIsSkipped` | internal/admin/audit_persist.go:89-94 | a line of blanks has no entry |
| `Audit.CutAllSpells` | internal/admin/audit_persist.go:84-85 | a reader with any buffer size spells the lines of the file |
| `Audit.LoadAuditLog` | internal/admin/audit_persist.go:37-65 | the ring holds the last 500 entries over all generations; one unreadable file costs its own lines only |
| `Audit.Replay` | internal/admin/audit_persist.go:37-65 | what Snapshot shows after that |
| `Audit.AuditLog.AppendAuditLine` | internal/admin/audit_persist.go:137-167 | writes the line and rolls the log once it is over the limit |
| `Audit.AuditLog.RotateAuditLog` | internal/admin/audit_persist.go:172-194 | the renames shift each generation by one and drop the oldest |
| `Audit.AppendKeeps` | internal/admin/audit_persist.go:137-194 | every append and roll keeps the files a suffix of the history, rotated generations over the limit and in order |
| `Audit.RetainedIsSuffix` | internal/admin/audit_persist.go:137-194 | so after every history |
| `Audit.DroppedOnlyWhenLarge` | internal/admin/audit_persist.go:169-171 | lines are dropped only while more than 30 MB of newer ones stay |
| `Audit.SizeIsLength` | internal/admin/audit_persist.go:158-165 | the size tested is the length of the file, line ends included |
| `Audit.ReplayShowsRecentHistory` | internal/admin/audit_persist.go:37-132 | after any history and a reload the trail is, in order, the last 500 readable entries of the retained suffix |
| `Audit.ShortEntriesAreReadable` | internal/admin/audit_persist.go:15-17 | entries whose lines are within the limit are all readable |
| `Totp.ValidateTOTP` | internal/admin/totp.go:41-62 | accepts exactly the codes of the three steps around now and reports the earliest that matches |
| `Totp.Guard.Burn` | internal/admin/totp.go:73-89 | refuses exactly consumed steps; otherwise prunes records out of the window and records the step |
| `Totp.Guard.ValidateNoReplay` | internal/admin/totp.go:68-90 | check and burn together, the clock read at both |
| `Totp.AcceptedStepsIncrease` | internal/admin/totp.go:68-90 | over every run with timely burns the steps accepted for a secret strictly increase, although records are pruned |
| `Totp.PromptIsTimely` | internal/admin/totp.go:68-90 | in any run whose burns fall into the time step of their check all burns are timely, whatever other calls interleave |
| `Totp.ReplayableIffLate` | internal/admin/totp.go:75-88 | a step can be accepted twice after a run of timely burns exactly if its own burn comes later than one step after it |
| `Totp.LateBurnIsAccepted` | internal/admin/totp.go:80-88 | for every step and every burn time outside the window, a run with timely burns after which that burn is accepted again |

## Left out

- Docker apps: containers act by name outside the lock; only native children are modelled.
- Spawning, signals, log files, shell-command checks: abstract spawn, exit and kill steps. Kills succeed; a `gracefulKill` that fails is not modelled.
- HTTP handlers, routing, JSON and YAML, address and host parsing: not part of this model.
- Cryptography: collisions of hashes, fingerprints and codes are not modelled.
- Roles, permissions, the last-admin guard, the global API key and the plaintext-key fallback of `AuthenticateAPIKey`.
- Auth.Step: which sessions go when a user has more than fifty is any subset of that user's sessions; the exact choice is in AuthManager.
- Auth.SessionsStayCurrent: speaks of runs without a restart, since a stale sessions file may bring sessions back into memory; the theorems of Revocation say what they can then do.
- Firewall hooks that fail, and rules left by an earlier process: hooks succeed and runs start empty.
- The `Firewall` flag of an entry and the save worker.
- Saved block lists that are damaged: `salvagePersisted` is not part of this model.
- Detect: the answers of the block list and the whitelist are inputs of its runs, and address parsing, the switch for rate signals and the other defaults of `Normalize` are not part of this model.
- Cron.NextCronRun: local time without daylight-saving shifts.
- CronSchedule.NextRun: texts outside the six term forms (such as `5-` or `--`) have no meaning to compare with; Cron.NextCronRun covers every text.
- Bandwidth: counters do not wrap at 2^63 bytes, thresholds are exact fractions instead of floating point, and `UpdateDomains` with its host resolution is not part of this model.
- Audit: concurrent appenders racing on open and rename, failing writes and renames, and partial lines after a crash.
- RingBuffers.RingBuffer.Since: says nothing of positions never handed out or handed out before a Seed.
- Ports: ports beyond 65535 are only excluded by the free-port test.
- Tar, gzip, S3, SFTP and restore; alert history and analytics buckets, which repeat the ring-buffer argument.
