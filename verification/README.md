# WOLT control plane: a Dafny model

WOLT wakes machines through a firewall. Its control plane keeps users and sessions, listeners and
their UDP ports, and a host agent that upgrades, reconfigures and rolls back the installation. This
project models the state machines behind that and proves what they keep over whole runs.

Transactions and external effects are modelled as follows.

- A database transaction is one atomic step; inside it a working copy is changed and then committed
  or discarded.
- The run theorems of `HostRuns` take a host-agent job as one step. `AgentRuns` takes a thread as
  two, what it reads and what it does, lets firewall calls come in between and proves that accepted
  jobs are nevertheless served whole and in order; `HostRaces` says what such a call may spoil, and
  `JobRaces` lets starts overlap.
- Every external effect (UFW, docker compose, health poll, pg_dump and pg_restore, file copies,
  socket probes, mail) is an oracle value that says how it went. A lemma about all oracle values
  is a lemma about every way the effects can fail.
- Hashes are injective, so a stored hash is modelled by what was hashed; tokens, user ids, listener
  ids and backup names are fresh; the clock of the identity transactions never goes back.

Where the code changes things step by step there is a class whose methods do the same, and each
method is proved equal to a function on state values. The lemmas are about those functions. The table
below lists the methods with loops, compensation, a working copy or dispatch; the straight-line
methods beside them carry the same kind of contract.

Three modules say what the operations compute without naming how: `IdentityHistory` tells every
answer from the calls and replies so far, `ListenerHistory` tells every row from the last accepted
operation on it, and `HostOutcomes` tells how a job ends from the list of its steps.

| files | part |
|---|---|
| `EnvFile`, `RuntimeFiles`, `HostJobs`, `HostGuarantees`, `HostOutcomes`, `HostRuns`, `HostControl`, `HostRaces`, `JobTable`, `JobEviction`, `JobRaces`, `AgentRuns` | host agent |
| `Identity`, `IdentityGuarantees`, `IdentityRuns`, `IdentityNames`, `IdentityHistory`, `AccountTables` | users, sessions, one-time tokens |
| `Listeners`, `ListenerGuarantees`, `ListenerHistory`, `ControlPlane` | listener table, port allocation, engine |
| `RateLimit`, `LoginLimit`, `LoginSkew` | the two limiters |
| `MagicPacket` | wake packets and the command built from them |
| `Observability` | event pages and dashboard series |

## Where the code falls short of the plain property

Each of these is kept as the code has it. There is a lemma at a failing input and, for all inputs,
the exact condition under which the property holds.

| the code | failing input | exact condition |
|---|---|---|
| The env editor rewrites the first line of a key, the reader keeps the last: an edit of a key on two lines is lost. | `EnvFile.DuplicateKeyLosesEdit` | `EnvFile.EditIsMapUpdateIff` |
| A runtime backup reads compose files at their project paths, a restoration writes them at the configured paths. | `RuntimeFiles.DivergentPathLosesFile` | `RuntimeFiles.RoundTripIffPathsCoincide` |
| A deployment whose firewall step, compose step or last state write fails leaves the new port range in env. | `HostGuarantees.FailedDeploymentLeavesRange` | `HostGuarantees.FailedDeploymentKeepsRangeIff` |
| An upgrade whose last state write fails is reported failed and stays in effect. | `HostGuarantees.UnrecordedUpgradeStaysInEffect` | `HostGuarantees.FailedUpgradeUndoneIff` |
| An upgrade deletes the backups of the earlier rollback point before it records the new one. | `HostGuarantees.PointLost` | `HostGuarantees.UpgradeKeepsUsableIff` |
| A rule added to UFW is stray when the state file cannot be written. | `HostGuarantees.StrayRuleAppears` | `HostGuarantees.ApplyKeepsNoStrayRuleIff` |
| The check for a running job and the insertion of the new one are two critical sections: two starts may both pass. | `JobRaces.TwoStartsRace` | `JobRaces.SingleIffNoOverlap` |
| The job table is trimmed in the order of ids, not of age, so a recent job may be gone and an older one there. | `JobEviction.RecentJobIsGone` | `JobEviction.FoundAfterRestartIff`, `JobEviction.FileIsMostRecentIff` |
| A start sets memory before it writes the file; when the write raises, an entry without a thread stays running and blocks all starts. | `JobTable.RaisedStartBlocks` | `JobTable.StartingStaysPossibleIff` |
| A firewall call is let in while a deployment runs, which has already remembered the rule to go back to. | `HostRaces.NeitherOrderOnFreshHost` | `HostRaces.CallBetweenChangesPointIff`, `HostRaces.UndoForgetsCall` |
| Reset tokens, unlike sessions, come back to life with their user. | `IdentityRuns.ResetRevivesWithUser` | `IdentityRuns.ResetRefusedForGoodIff` |
| `resume` does not reset rows it does not select, so the number of active listeners may be too high. | `ListenerGuarantees.StaleRowAppears` | `ListenerGuarantees.ActiveCountAfterResume` |
| `resume` does not catch a missing master key or a rejected parameter, and then what is bound depends on the order of the rows. | `ListenerGuarantees.MixedRowsDependOnOrder` | `ListenerGuarantees.ResumeRaisesIff`, `ListenerGuarantees.OrderFreeIff` |
| The login limiter reads the clock before it takes its lock; when readings go back its deque forgets too early. | `LoginLimit.OutOfOrderExceedsLimit` | `LoginSkew.CapsIff` |
| The dashboard's total has no upper time bound, its hourly series has one. | `Observability.EventAtEndIsInNoBucket` | `Observability.SeriesMatchesTotalIff` |

## Model

| member | source | states |
|---|---|---|
| `EnvFile.EnvValues` | host_agent/server.py:290-296 | the reading loop builds the dictionary in which the last line of a key wins |
| `EnvFile.ParsedExample` | host_agent/server.py:290-296 | a file with an indented comment, a line without '=' and a value with one |
| `EnvFile.EditLines` | host_agent/server.py:302-312 | the editing loop with its shrinking dictionary writes exactly the specified lines |
| `EnvFile.RenderReads` | host_agent/server.py:306-312 | a line written for a key without '=' and not a comment reads back as that key and value |
| `EnvFile.EditedValue` | host_agent/server.py:290-312 | for every key of every file: its value and its number of lines after an edit, changed key set once, changed key set twice, unchanged key |
| `EnvFile.EditIsMapUpdateIff` | host_agent/server.py:290-318 | parse after edit is the old dictionary overridden by the changes if and only if each changed key is on at most one line or already has the value |
| `EnvFile.DuplicateKeyLosesEdit` | host_agent/server.py:295-310 | a file with one key twice on which the edit is not read back |
| `EnvFile.EditedLine` | host_agent/server.py:305-311 | the first line of a changed key is rewritten in place, every other line keeps text and position |
| `EnvFile.EditedTail` | host_agent/server.py:312 | exactly the changes no line sets are appended, in dictionary order |
| `EnvFile.EditTwice` | host_agent/server.py:298-318 | applying the same changes again changes nothing |
| `EnvFile.EditThenEditBack` | host_agent/server.py:604-613 | editing the same keys back leaves no trace of the first edit |
| `EnvFile.WriteThenReadIff` | host_agent/server.py:302-316 | joining lines and splitting the text returns them if and only if there is a line and none holds a line break |
| `EnvFile.UpdateText` | host_agent/server.py:298-318 | the new text as a function of the old, and for unbroken changes it reads back as a map update exactly on writable files |
| `EnvFile.UpdatedTextReadsIff` | host_agent/server.py:290-318 | from text to text the edit is read back as a map update if and only if each changed key is on at most one line or already has the value |
| `RuntimeFiles.WriteFrame` | host_agent/server.py:415-430 | slot writes touch no path outside the slots, also when one raises |
| `RuntimeFiles.RestoreIsAbsolute` | host_agent/server.py:519-542 | from any partly overwritten slots, restoring gives back the earlier contents, absent slots included |
| `RuntimeFiles.RoundTripIffPathsCoincide` | host_agent/server.py:485-542 | deploy, however it fails, then restore is the identity for all contents if and only if backup and restore paths coincide |
| `RuntimeFiles.DivergentPathLosesFile` | host_agent/server.py:489-534 | with a compose file kept elsewhere the restoration deletes it |
| `HostGuarantees.UpgradeSucceedsIff` | host_agent/server.py:621-672 | an upgrade succeeds exactly when every forward step does |
| `HostGuarantees.DeployRuntimeUnwinds` | host_agent/server.py:502-517 | a copy that fails at any slot leaves all files as they were |
| `HostGuarantees.CompensationRestores` | host_agent/server.py:641-653 | the automatic rollback of a failed upgrade restores files and database whatever the failed step left |
| `HostGuarantees.UpgradeAllOrNothing` | host_agent/server.py:621-657 | wherever a forward step fails: job failed, files, database, firewall and record as at the start, earlier backups kept, env as before up to image and version |
| `HostGuarantees.FailedUpgradeKeepsEnv` | host_agent/server.py:625-644 | with image and version recorded, every key reads as before |
| `HostGuarantees.UnrecordedUpgradeStaysInEffect` | host_agent/server.py:656-672 | when only the last write fails the job is failed, bundle, image, version and migrated database are in effect, the record is the old one and the backups it names are gone |
| `HostGuarantees.FailedUpgradeUndoneIff` | host_agent/server.py:621-672 | a failed upgrade whose compensation works is undone (files, database, rules, record, earlier backups, image and version) if and only if more than its last write failed, or it asked for nothing new and had no earlier backup to delete |
| `HostGuarantees.ApplyLeavesExactlyRule` | host_agent/server.py:216-234 | a successful apply leaves exactly the requested rule, recorded and present |
| `HostGuarantees.ApplyKeepsNoStrayRuleIff` | host_agent/server.py:216-234 | whatever fails, the rules present are within the recorded one, unless the rule was added and the state file not written |
| `HostGuarantees.StrayRuleAppears` | host_agent/server.py:228-234 | on a fresh host one apply whose state write fails leaves a stray rule |
| `HostGuarantees.ResetLeavesExactly` | host_agent/server.py:614-617 | putting back the previous rule or none leaves exactly that |
| `HostGuarantees.UnhealthyDeploymentUndone` | host_agent/server.py:599-619 | a deployment that fails its health check and is compensated ends with previous rule and old or default range, nothing else changed |
| `HostGuarantees.FailedDeploymentKeepsRangeIff` | host_agent/server.py:599-620 | a failed deployment, however it fails, leaves the range as it was if and only if it was rejected before the edit, or failed its health check and was edited back, or the range is the same |
| `HostGuarantees.FailedDeploymentLeavesRange` | host_agent/server.py:607-620 | on a fresh host: compose fails, or only the last write does, and the new range stays |
| `HostGuarantees.UsablePointRollsBack` | host_agent/server.py:673-694 | a usable point can be rolled back to: only an external effect makes it fail |
| `HostOutcomes.JobEnds` | host_agent/server.py:596-711 | every job and firewall call raises the error of the first step that fails, in the order it takes them, and succeeds if and only if none does |
| `HostOutcomes.RollbackSucceedsIff` | host_agent/server.py:673-694 | a usable point is reached if and only if env edit, named file and database restores, the firewall commands it needs, compose and health check all succeed |
| `HostOutcomes.RollbackEnds` | host_agent/server.py:673-694 | how a rollback ends: point, env, files, database, firewall, compose, health, in this order |
| `HostOutcomes.RollbackStopsShort` | host_agent/server.py:673-694 | how far a failing rollback gets: what is edited, written, restored or damaged, and that the firewall comes last |
| `HostOutcomes.DeploymentEnds` | host_agent/server.py:599-620 | how a deployment ends, its compensation included |
| `HostOutcomes.UpgradeEnds` | host_agent/server.py:621-672 | how an upgrade ends, whatever its compensation does |
| `HostOutcomes.WritesLeave` | host_agent/server.py:415-430 | slots before a fault hold the new contents, those after it the old, a broken directory what is left; the writes succeed if and only if none raises |
| `HostGuarantees.NonCommitKeepsPoint` | host_agent/server.py:596-711 | a job that sets no new point, whatever fails in it, leaves the point and the backups it names intact; of an upgrade only the last write must succeed |
| `HostGuarantees.StepKeepsUsable` | host_agent/server.py:596-711 | every job keeps the recorded point usable, whatever other state write fails |
| `HostGuarantees.UpgradeKeepsUsableIff` | host_agent/server.py:658-671 | one upgrade keeps the point usable if and only if the last write succeeds or no backup was named |
| `HostGuarantees.PointLost` | host_agent/server.py:658-671 | from a fresh host, an upgrade and then one whose last write fails: the point is no longer usable |
| `HostRuns.FreshHostIsSteady` | host_agent/server.py:121-133 | a host the agent has not touched satisfies the invariants |
| `HostRuns.StepKeepsSteady` | host_agent/server.py:596-711 | every job and firewall call keeps the point usable and WOLT keys at most once in env |
| `HostRuns.RunStaysSteady` | host_agent/server.py:596-711 | the same in every reachable state of every run, other state writes failing or not |
| `HostRuns.StepKeepsNoStrayRule` | host_agent/server.py:204-245 | every job whose firewall writes are recorded leaves no rule but the recorded one |
| `HostRuns.RunLeavesNoStrayRule` | host_agent/server.py:204-245 | the same after every such run |
| `HostRuns.RunKeepsPoint` | host_agent/server.py:596-711 | any number of failed jobs and rollbacks, however they fail, leaves point and backups intact |
| `HostRuns.RunTouchesOnlyItsOwn` | host_agent/server.py:596-711 | in every run, whatever fails, only the five slots and the four WOLT keys change |
| `HostRuns.RollbackReachesPoint` | host_agent/server.py:673-694 | a successful rollback leads exactly to the recorded point |
| `HostRuns.RollbackTwice` | host_agent/server.py:673-694 | a second successful rollback changes nothing at all |
| `HostRuns.RollbackUndoesUpgrade` | host_agent/server.py:658-694 | after any failed jobs in between, rollback gives back all files, the database, the version and the image of before the upgrade, or the running image where none was set |
| `HostRuns.RollbackUndoesDeployment` | host_agent/server.py:620-694 | after any failed jobs in between, rollback gives back recorded rule and range of before the deployment, and UFW holds exactly that rule unless a stray one crept in |
| `HostRuns.DeploymentTakesEffect` | host_agent/server.py:599-620 | a successful deployment leaves exactly the requested rule, and the numbers read from env are the requested ports |
| `HostGuarantees.NumOfStr` | host_agent/server.py:609 | a port number written in decimal reads back, digit by digit from the character codes |
| `HostRuns.DeploymentWritesLines` | host_agent/server.py:609 | the two lines that a deployment writes to an empty file, letter by letter |
| `HostRuns.UpgradeTakesEffect` | host_agent/server.py:634-671 | a successful upgrade installs the bundle, names the verified image, and writes a version that starts with 'v' and is the requested one or that one behind the 'v' |
| `HostRaces.CallBetweenChangesPointIff` | host_agent/server.py:216-234 | a firewall call between the reads and the effects of a successful deployment changes what it ends in if and only if the call changes the recorded rule, and then only its rollback point |
| `HostRaces.RollbackForgetsCall` | host_agent/server.py:608-694 | a later rollback records the rule of before such a call, which is the call's rule if and only if the call changed nothing |
| `HostRaces.UndoForgetsCall` | host_agent/server.py:611-619 | the compensation of an unhealthy deployment records the rule of before such a call, so the call stands if and only if it changed nothing |
| `HostRaces.CallBetweenIsNeitherOrder` | host_agent/server.py:599-620 | with a call for one rule and a smooth deployment for another the end is that of neither order |
| `HostRaces.NeitherOrderOnFreshHost` | host_agent/server.py:599-620 | such a call and deployment on a host the agent has not touched |
| `HostControl.HostController.TakeSnapshot` | host_agent/server.py:488-500 | the backup loop records each slot's content or absence |
| `HostControl.HostController.WriteSlots` | host_agent/server.py:503-513 | the slots are written one by one until one raises |
| `HostControl.HostController.DeployRuntime` | host_agent/server.py:485-517 | backup, copy and restoration on failure; refines the function of which DeployRuntimeUnwinds is proved |
| `HostControl.HostController.Deployment` | host_agent/server.py:599-620 | whole new host state and outcome; refines the function of which UnhealthyDeploymentUndone and DeploymentTakesEffect are proved |
| `HostControl.HostController.Upgrade` | host_agent/server.py:621-672 | whole new host state and outcome; refines the function of which UpgradeAllOrNothing and UpgradeTakesEffect are proved |
| `HostControl.HostController.Rollback` | host_agent/server.py:673-694 | whole new host state and outcome; refines the function of which RollbackReachesPoint and RollbackTwice are proved |
| `HostControl.ExecuteJob` | host_agent/server.py:596-711 | the outcome of the operation is the one saved, and a success whose save raises is saved as a failure |
| `JobTable.StoredIsSorted` | host_agent/server.py:111-117 | the file stays sorted and holds at most twenty jobs |
| `JobTable.FullTableDropsLeastId` | host_agent/server.py:570-572 | a full table drops the least id |
| `JobTable.RunStaysConsistent` | host_agent/server.py:564-585 | in every serialised run, whatever save raises, at most one job is running, the job under way is the running one and the file holds at most twenty |
| `JobTable.FinishReenablesStart` | host_agent/server.py:695-711 | every thread ends in a terminal status under its own name, succeeded exactly when the operation and the save of its success did, else with the error; and starting works again |
| `JobTable.StartingStaysPossibleIff` | host_agent/server.py:564-585 | after any run and with no thread under way, the next start is let through if and only if no start since the agent's own start raised in its save |
| `JobTable.BlockedUntilRestart` | host_agent/server.py:564-585 | once a start has raised in its save every start is refused until a restart, whatever comes in between |
| `JobTable.RaisedStartBlocks` | host_agent/server.py:565-583 | a first start whose save raises: nothing runs and the second is refused |
| `JobTable.JobReadsLastSaved` | host_agent/server.py:587-594 | every job of this process reads back as last saved |
| `JobTable.EndSurvivesRestartIff` | host_agent/server.py:587-711 | an ended job reads the same after a restart if and only if its last save did not raise; else the file still says running |
| `JobEviction.RunFile` | host_agent/server.py:564-573 | over every run from an empty file: it holds all jobs up to twenty, then twenty of them, always the last one, and every evicted id is smaller than every kept one but the last |
| `JobEviction.FoundAfterRestartIff` | host_agent/server.py:564-594 | after any run and a restart a job is found if and only if it is the last one or fewer than nineteen of those before the last have a greater id |
| `JobEviction.FileIsMostRecentIff` | host_agent/server.py:564-573 | the file is the twenty most recent jobs if and only if the nineteen before the last have greater ids than all older ones |
| `JobEviction.RecentJobIsGone` | host_agent/server.py:569-572 | a run of twenty-one jobs after which the most recent but one is gone and the oldest is found |
| `JobRaces.SingleIffNoOverlap` | host_agent/server.py:564-585 | over every interleaving of checks, insertions and completions: pending starts can never lead to two running jobs if and only if no check passes while another checked start is pending |
| `JobRaces.TwoStartsRace` | host_agent/server.py:578-583 | check, check, insert, insert gives two running jobs, however the saves go |
| `JobRaces.CheckThenInsertIsStart` | host_agent/server.py:575-585 | a check followed at once by its insertion is the serialised start |
| `AgentRuns.RunStaysInStep` | host_agent/server.py:575-711 | in every run of starts, thread steps and firewall calls the threads under way are the running jobs of the table, under their names |
| `AgentRuns.SecondStartRefused` | host_agent/server.py:578-580 | while a thread is under way a start is refused and changes nothing |
| `AgentRuns.IdleStartIsRecorded` | host_agent/server.py:575-585 | while nothing runs each of the three operations is started and recorded as running under its name |
| `AgentRuns.AcceptedAreServedInOrder` | host_agent/server.py:575-711 | over every run from an idle agent the accepted jobs, in order, are the ended ones followed by the one under way: none lost, doubled or reordered |
| `AgentRuns.HostIsRunOfAccepted` | host_agent/server.py:575-711 | after any such run without a racing call the host is where the accepted jobs, whole and in the order of acceptance, and the firewall calls between them lead, so the run theorems apply |
| `JobTable.JobStore.SaveJob` | host_agent/server.py:564-573 | memory is set first, then the file as the trimming loop leaves it, unless the write raises |
| `JobTable.JobStore.Get` | host_agent/server.py:587-594 | this process first, then the file |
| `IdentityGuarantees.StepKeepsInv` | app/application/identity_service.py:222-403 | every transaction keeps: no unrevoked session of a disabled user, pending users of open invitations, one unused reset token per user |
| `IdentityGuarantees.RunKeepsInv` | app/application/auth_service.py:85-257 | the same in every reachable state |
| `IdentityGuarantees.ReachableIsOk` | app/application/auth_service.py:85-137 | the same in every state reached from the tables before setup |
| `IdentityRuns.RejectedForever` | app/application/auth_service.py:170-185 | once current_user rejects an issued token it rejects it in every later state and at every later reading |
| `IdentityRuns.EarlierSessionsEndForGood` | app/application/identity_service.py:322-349 | after revocation, disabling, reset or recovery no earlier session of the user is ever valid again |
| `IdentityRuns.LogoutEndsSession` | app/application/auth_service.py:187-208 | logging out ends that session for good and no other |
| `IdentityRuns.SessionOpens` | app/application/auth_service.py:70-83 | signing in, the first owner included, opens a session for exactly the lifetime and changes no other user's |
| `IdentityRuns.InvitationWorksOnce` | app/application/identity_service.py:278-299 | an invitation is accepted at most once in any run, and never over an existing password |
| `IdentityRuns.ResetWorksOnce` | app/application/identity_service.py:382-403 | a reset token completes at most once in any run |
| `IdentityRuns.NewResetVoidsOld` | app/application/identity_service.py:362-370 | a new request voids the user's earlier tokens for good |
| `IdentityRuns.ResetRefusedForGoodIff` | app/application/identity_service.py:382-393 | a token is refused in all later states and readings if and only if it is gone, used or expired |
| `IdentityRuns.DeadStaysDead` | app/application/identity_service.py:382-403 | a token that is gone, used or expired stays so over every run |
| `IdentityRuns.LiveResetComesBack` | app/application/identity_service.py:391-393 | any other token is accepted at once or after one re-enabling update |
| `IdentityNames.RunKeepsNames` | app/web/identity_routes.py:35-38 | over every run that the routes let through names stay unique whatever their case, no user name looks like an address, and there is an enabled owner or nobody |
| `IdentityNames.LowerLetter` | app/application/auth_service.py:140 | folding makes capital ASCII letters small, each in its place, and nothing else |
| `IdentityNames.IdentifierMeansOneUser` | app/application/auth_service.py:139-160 | in every state reached from the tables before setup a login identifier, and an address for reset or recovery, means at most one user |
| `IdentityNames.PasswordTakesEffect` | app/application/auth_service.py:139-168 | after any such run and a password change, logging in by user name or address succeeds with the new password and with no other, whatever row the query returns first |
| `IdentityRuns.ResetRevivesWithUser` | app/application/identity_service.py:391-393 | the token of a disabled user is refused and accepted again after re-enabling |
| `IdentityRuns.RecoveryCodeWorksOnce` | app/application/auth_service.py:230-242 | each recovery code works at most once in any run |
| `IdentityRuns.StepKeepsOwner` | app/application/identity_service.py:311-318 | no transaction removes the last enabled owner |
| `IdentityRuns.RunKeepsOwner` | app/application/identity_service.py:231-321 | an enabled owner exists in every later state |
| `IdentityRuns.OwnerCreatedOnce` | app/application/auth_service.py:94-111 | create_owner succeeds at most once in any run |
| `IdentityRuns.StepIgnoresExpired` | app/application/observability_service.py:486-488 | every transaction replies alike with and without expired sessions |
| `IdentityRuns.CleanupIsUnobservable` | app/application/observability_service.py:486-488 | the clean-up changes no answer of current_user and no reply, now or after any run |
| `IdentityHistory.RunAgrees` | app/application/auth_service.py:85-257 | over every run the tables agree with what the transcript of calls and replies tells of every row, session, invitation, reset token and recovery code |
| `IdentityHistory.CurrentUserIsTold` | app/application/auth_service.py:170-185 | after any run current_user answers for exactly the sessions opened and neither expired nor ended since, with the name and folded address of the call that created the user and the role last given |
| `IdentityHistory.RepliesAreTold` | app/application/identity_service.py:222-403 | after any run the reply to every call follows from the transcript: who may sign in and with what, that invitations work for a day and resets for half an hour, once, who may be invited or changed |
| `AccountTables.Accounts.Perform` | app/application/auth_service.py:85-257 | performing any transaction on the tables takes them to the state, and gives the reply, of the step that all run theorems are about |
| `AccountTables.Accounts.RevokeWhere` | app/application/identity_service.py:323-327 | the row loop marks exactly the user's unrevoked sessions revoked now |
| `AccountTables.Accounts.VoidResets` | app/application/identity_service.py:363-365 | the row loop voids exactly the user's reset tokens |
| `AccountTables.Accounts.DeleteAll` | app/application/identity_service.py:241-242 | deleting users one by one takes along exactly what refers to them |
| `AccountTables.Accounts.CountEnabledOwners` | app/application/identity_service.py:312-317 | the row loop counts the enabled owners |
| `AccountTables.Accounts.AnyActive` | app/application/identity_service.py:239-240 | the row loop finds whether one of the users is active |
| `AccountTables.Accounts.Cleanup` | app/application/observability_service.py:486-488 | the row loop deletes exactly the sessions expired before now; refines the function of which CleanupIsUnobservable is proved |
| `ListenerGuarantees.StepKeepsInv` | app/application/operations_service.py:377-535 | every transaction keeps ports distinct and in range, the range allowed, active rows enabled, references resolved |
| `ListenerGuarantees.RunKeepsInv` | app/application/operations_service.py:377-535 | the same in every reachable state |
| `ListenerGuarantees.ReachableTablesAreOk` | app/application/operations_service.py:377-535 | the same, and all constraints of the database, in every state reached from the migrated tables |
| `ListenerGuarantees.RefusedChangesNothing` | app/application/operations_service.py:462-507 | whatever is refused, by a raise before or after the row was changed or by a constraint at commit, leaves the committed tables as they were |
| `ListenerGuarantees.RefusedLeaveNoTrace` | app/application/operations_service.py:377-535 | over every run the tables are those that the operations not refused lead to by themselves |
| `ListenerHistory.RefusedForFirstFailure` | app/application/operations_service.py:377-535 | in a reachable state every operation is refused with the error of the first check that fails, in order, and accepted if and only if none does |
| `ListenerHistory.RowIsLastWritten` | app/application/operations_service.py:480-490 | over every run a listener is there, with device, name, description, port, source, parameters and enabled flag, exactly as the last accepted operation on it left it |
| `ListenerHistory.SettingsAreLastAccepted` | app/application/observability_service.py:309-347 | over every run the range and each device are what was last accepted for them |
| `ListenerHistory.EventsAreKeptUntilPurged` | app/application/observability_service.py:474-479 | over every run a wake event is on record from its recording until a purge that does not keep it |
| `ListenerGuarantees.CommitNeverViolates` | app/application/operations_service.py:402-433 | in a reachable state a creation or update that raises nothing never fails a constraint at commit |
| `ListenerGuarantees.WithinCapacity` | app/application/observability_service.py:370-380 | used ports never exceed the reported capacity, which is at most 100 |
| `ListenerGuarantees.FirstFreeIsLeast` | app/application/operations_service.py:545-550 | the search finds the least port neither used nor busy, and nothing exactly when there is none |
| `ListenerGuarantees.AllocatedPortValidates` | app/application/operations_service.py:401-402 | an allocated port passes the validation that follows |
| `ListenerGuarantees.AllocationSucceeds` | app/application/operations_service.py:545-550 | with fewer listeners than ports and none busy, allocation succeeds |
| `ListenerGuarantees.AutoCreate` | app/application/operations_service.py:390-417 | automatic creation takes the least free port and is refused with a conflict exactly when there is none or it became busy |
| `ListenerGuarantees.VersionCountsUpdates` | app/application/operations_service.py:490 | over every run a version is 1 plus the successful updates of its listener |
| `ListenerGuarantees.OneUpdatePerVersion` | app/application/operations_service.py:469-470 | of the updates sent with one version at most one takes effect in any run |
| `ListenerGuarantees.GoneForGood` | app/application/operations_service.py:510-535 | a deleted listener never comes back |
| `ListenerGuarantees.BindRowIsLocal` | app/application/engine_runtime.py:210-234 | with distinct ports and sockets closed first, a row binds or fails by itself, whatever rows came before |
| `ListenerGuarantees.ResumeIsSettled` | app/application/engine_runtime.py:195-238 | the bound set is exactly the selected rows with usable device and free port, statuses and report follow, in any order and after any history |
| `ListenerGuarantees.ResumeIsOrderFree` | app/application/engine_runtime.py:200-234 | two orders of the rows give the same engine and tables |
| `ListenerGuarantees.RunningIffAllBound` | app/application/engine_runtime.py:235-237 | active is reported if and only if every selected row is bound; failures are the rest |
| `ListenerGuarantees.ResumeRaisesIff` | app/application/engine_runtime.py:218-234 | resume raises if and only if some enabled row of an enabled device has a credential and the key is missing, or a readable one and rejected parameters; it binds no row it should not |
| `ListenerGuarantees.ResumeBindsIff` | app/application/engine_runtime.py:200-234 | else a row is bound, on its port, if and only if it and its device are enabled, the credential is readable and the port free |
| `ListenerGuarantees.ResumeSaysWhy` | app/application/engine_runtime.py:229-234 | and each such row says active, or failing with the reason; every other row says what it said |
| `ListenerGuarantees.PauseStopsAll` | app/application/engine_runtime.py:240-250 | pausing leaves no socket and no active row, says paused, and changes nothing else |
| `ListenerGuarantees.OrderFreeIff` | app/application/engine_runtime.py:200-234 | all orders of the rows give the same engine if and only if every selected row's error is caught or none is |
| `ListenerGuarantees.MixedRowsDependOnOrder` | app/application/engine_runtime.py:200-234 | with one caught and one uncaught row two orders give different engines |
| `ListenerGuarantees.ResumeTwice` | app/application/engine_runtime.py:252-257 | resuming again changes nothing |
| `ListenerGuarantees.ActiveCountAfterResume` | app/application/operations_service.py:608-613 | the reported active count is the bound rows plus the stale ones, so exact if and only if there are none |
| `ListenerGuarantees.StaleRowAppears` | app/application/engine_runtime.py:200-234 | from fresh tables a run of four operations after which resume reports one active listener and has bound none |
| `ControlPlane.Session.AllocatePort` | app/application/operations_service.py:545-550 | the search loop finds the specified port |
| `ControlPlane.Session.ChangeListener` | app/application/operations_service.py:460-492 | checks, then the row field by field, then the name: working copy and error are the specified ones, the committed tables untouched |
| `ControlPlane.Session.Finish` | app/application/operations_service.py:503-507 | a raise and a violated constraint drop the working copy, a commit installs it |
| `ControlPlane.Database.Update` | app/application/operations_service.py:447-508 | committed tables and reply after the whole transaction; refines the function of which OneUpdatePerVersion and RefusedChangesNothing are proved |
| `ControlPlane.EngineRuntime.Resume` | app/application/engine_runtime.py:195-238 | the loop over the rows reaches the specified engine whatever was bound before |
| `RateLimit.AdmissionsAreSpaced` | app/rate_limit.py:15-23 | for any readings two admissions of a key are at least the interval apart |
| `RateLimit.AdmittedIffSpaced` | app/rate_limit.py:15-23 | a request passes if and only if every earlier admission of its key is at least the interval before it |
| `RateLimit.KeysAreIndependent` | app/rate_limit.py:16 | each key is decided as by a limiter fed only that key |
| `RateLimit.AtMostPerSpan` | app/rate_limit.py:19-23 | any span of length L holds at most floor(L/interval)+1 admissions |
| `RateLimit.GreedyStaysAhead` | app/rate_limit.py:15-23 | for non-decreasing readings the limiter is never behind any spaced choice |
| `RateLimit.LimiterIsOptimal` | app/rate_limit.py:15-23 | the admitted requests are a largest spaced set of the key's requests |
| `RateLimit.RateLimiter.Create` | app/rate_limit.py:7-13 | a negative interval is refused |
| `RateLimit.RateLimiter.Allow` | app/rate_limit.py:15-23 | the answer is the one the whole history defines, other keys keep their memory |
| `LoginLimit.DequeHoldsRecent` | app/web/auth_routes.py:60-70 | for non-decreasing readings the pruned deque holds exactly the admitted attempts still in the window |
| `LoginLimit.LimiterRefinesCount` | app/web/auth_routes.py:60-75 | the limiter answers as counting the admitted attempts in the window since the last clear |
| `LoginLimit.LetThroughIsAdmissions` | app/web/auth_routes.py:60-71 | for non-decreasing readings the attempts the deque let through since the last clear are those of the plain count |
| `LoginLimit.WindowIsCapped` | app/web/auth_routes.py:60-71 | for non-decreasing readings no closed window without a clear holds more let-through attempts than the limit |
| `LoginLimit.OutOfOrderExceedsLimit` | app/web/auth_routes.py:60-71 | with limit 2 and readings that go back three attempts are let into one window |
| `LoginSkew.DequeHoldsWindow` | app/web/auth_routes.py:60-70 | a window that starts no earlier than the latest reading less the window length is still in the deque, whatever the order of the readings |
| `LoginSkew.SkewedIsCapped` | app/web/auth_routes.py:60-71 | with readings that go back by at most the skew, a span shorter than the window by the skew never sees more than the limit |
| `LoginSkew.OneAtATime` | app/web/auth_routes.py:66-70 | with a limit of one the deque is the last attempt let through, and each came more than a window after the one before, whatever the readings |
| `LoginSkew.CapsIff` | app/web/auth_routes.py:60-71 | over all runs with a given skew a span is capped if and only if it is shorter than the window by the skew, or the limit is one and it fits the window, or the limit is none |
| `LoginLimit.LoginAttemptLimiter.PruneFront` | app/web/auth_routes.py:66-67 | the pruning loop drops exactly the leading old attempts |
| `LoginLimit.LoginAttemptLimiter.Allow` | app/web/auth_routes.py:60-71 | every key's deque follows its history; the answer is the pruned deque's for any readings and the plain count's for non-decreasing ones |
| `MagicPacket.ParseBuilt` | app/parser.py:14-33 | parsing a built packet gives the MAC's hexadecimal form |
| `MagicPacket.ParsedMacReads` | app/parser.py:20-27 | the digits of the parsed MAC, valued from their character codes, are bytes 6 to 11 of the packet |
| `MagicPacket.AcceptedIffBytes` | app/parser.py:14-22 | a packet is accepted if and only if it is 102 bytes: six of 255, then six bytes sixteen times |
| `MagicPacket.AcceptedIffBuilt` | app/parser.py:14-33 | the parser accepts exactly the image of the builder |
| `MagicPacket.AcceptedPacketsDiffer` | app/parser.py:20-27 | distinct accepted packets give distinct MAC strings |
| `MagicPacket.AcceptedMacPasses` | app/fortigate.py:11-23 | every parsed MAC passes the command builder's check |
| `MagicPacket.CommandDetermines` | app/fortigate.py:19-28 | the command text determines interface, MAC and address |
| `MagicPacket.CommandWords` | app/fortigate.py:18-28 | the command is refused exactly for a bad interface, MAC or address, and its words are these seven |
| `Observability.PagesPartitionRows` | app/application/observability_service.py:69-90 | the pages put together are all rows in order |
| `Observability.PageCountIsExact` | app/application/observability_service.py:78-89 | a page has rows if and only if its number is within the reported count |
| `Observability.RowIsOnPage` | app/application/observability_service.py:78-90 | row k stands at place k modulo size of page k divided by size plus one |
| `Observability.Series` | app/application/observability_service.py:210-235 | one bucket per hour, and their totals add up to the events of the span |
| `Observability.BucketCountsItsHour` | app/application/observability_service.py:210-235 | a bucket counts the successes, the rate-limited and all other events of its hour |
| `Observability.SeriesMatchesTotalIff` | app/application/observability_service.py:199-235 | the series adds up to the total if and only if no event lies at or after the end instant |
| `Observability.EventAtEndIsInNoBucket` | app/application/observability_service.py:199-235 | an event at the end instant is in the total and in no bucket |

## Left out

- HTTP handlers, cookies, role checks of the routes, SMTP delivery, SSH to the firewall, cosign, Docker and Docker Hub: foreign calls, of which only success or failure is modelled.
- Argon2, SHA-256 and AES-GCM: hashes are injective and ciphertexts readable or not.
- Release, repository and identifier patterns: whether a version matches is an oracle value; IP addresses arrive as the address library writes them or as rejected.
- File modes, symlink checks, temporary names and the env backup copy: a slot is its content and a directory is its whole tree.
- Nested slot paths and a directory removal that silently leaves files behind: the five slot paths are distinct and an ignored-error removal removes.
- Database changes made by the running application between the steps of a job: the database changes only when the new image is started and when a backup is restored.
- Concurrent transactions: settings read without a lock by a listener update and the unlocked owner count are modelled as serialised. Of the host agent, overlapping starts (JobRaces) and firewall calls during a deployment (HostRaces, AgentRuns) are modelled; the effects of a thread are one step, and so is each read-change-write of the state file.
- Case folding and trimming of names: folding covers ASCII letters, and inputs arrive trimmed.
- Audit events, CSV export, text search, retention of wake and audit events beyond which rows are gone, device editing details, the web front end, migrations and installers: presentation or plumbing.
- HostGuarantees.UpgradeAllOrNothing: assumes a file that sets no WOLT key twice (EditIsMapUpdateIff says why) and coinciding compose paths (RoundTripIffPathsCoincide says why); the failed last write is left to UnrecordedUpgradeStaysInEffect and FailedUpgradeUndoneIff.
- LoginLimit.WindowIsCapped: assumes non-decreasing readings; LoginSkew.CapsIff says what is capped when they go back.
- IdentityNames.RunKeepsNames: takes from the routes that user names hold no '@' and addresses do, and that only an enabled owner invites; the services alone do not check it.
- JobEviction.RunFile: job ids are random and taken to be distinct over the whole run.
- HostRuns.RollbackUndoesDeployment: says nothing of files and database beyond leaving them alone, because a deployment's rollback point names neither.
- RateLimit.LimiterIsOptimal: speaks of one limiter's life; `resume` installs a new limiter.
