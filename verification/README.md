# Verified model of the DevOps trainer

The trainer hands every user a disposable container to repair. Its backend keeps several state machines whose
guarantees depend on timers, on what runs between two `await`s, and on crashes; its challenge page adds a
reconnect machine of its own. This project models those machines in Dafny and proves what they promise over
every run. `dafny verify dfyconfig.toml` checks everything.

Each machine is a total step function over a state datatype: one step per stretch of code between two
`await`s, per query, per timer, socket or stream event. A run is any sequence of enabled events, so a theorem
about runs is a theorem about every interleaving. Beside a machine stands a class that does the same work in
place, with the source's fields and loops, each method proved to take exactly the machine's step.

| file | what it models |
|---|---|
| `TerminalModel`, `TerminalInvariants`, `TerminalTheorems`, `TerminalPeers`, `TerminalBackpressure`, `TerminalLiveness`, `TerminalGrace`, `TerminalFindings`, `TerminalService` | the exec registry: shells shared by sockets, grace timers, backpressure, ping sweep |
| `SessionModel`, `SessionCap`, `SessionProgress` | session calls interleaved at every await: how many sessions can be active, the progress row |
| `SessionSequential` | the same machine with calls one at a time: the documented cap and one session per user |
| `SessionCalls`, `SessionService` | the same calls one at a time: reaper, drain, boot |
| `SessionOutcomes` | what each such call leaves and what it spares, account deletion, and a reaper tick among other calls |
| `SessionAlone`, `SessionLone` | the two models agree: the complete runs of one call alone in the machine end with the results of its function, and with no others |
| `ProgressOverview`, `Celebrations` | the progress queries, the challenge list, the catalogue sync, the milestone detector |
| `RateLimit` | the fixed-window limiter and its sweeper |
| `AuthModel`, `ResetTokens`, `AuthTokens`, `AuthService` | reset transactions under row locks, and token invalidation |
| `Migrations` | the migration runner under crashes and concurrent boots |
| `PageModel`, `Reconnect`, `PageService`, `SameShell` | the page's reconnect machine, and page and server together |
| `Options`, `Sets` | an optional value, sizes of sets |

## Assumptions

- Time is a clock in milliseconds that never goes back, shared by the server, the database and the page.
  Timers fire when they are due. A paused stream emits no data.
- Code between two awaits is atomic, as is one SQL statement. PostgreSQL locks rows, commits atomically, looks
  at a row again after waiting for its lock, and fixes `now()` at the start of a transaction.
- In the session machine queries succeed and rows are not deleted (account deletion is one of the calls one at a
  time); Docker calls may throw, one by one.
- A shell held by a closure is an id, so late callbacks of an old shell act on whatever the registry holds.
- A terminated socket's close event needs no time. Control frames (banner, pings, close) count towards a
  socket's backlog and are tracked apart from shell output until they are sent.
- The page's ticket mutation answers its latest request only, and a started session has an id the page has not
  seen.
- Random reset tokens and new ids do not repeat, and SHA-256 of a token stands for it.

## What the proofs found

- A socket that closes while its bridge still awaits has no close listener. It stays in the socket set for
  good, so its shell is pinned and no bound on silence holds for it (`LostSocketPinsTheShell`,
  `LostSocketOutlastsEveryBound`).
- The grace time can be cut short: a timer left behind by a shell that ended while unattended still comes due,
  and ends a later shell of the container that happens to be unattended (`TimerLeftBehindCutsTheGrace`). The
  first timer pending for the container decides (`FirstTimerDecides`).
- Two first attaches of one container that overlap leave a live shell nobody can reach
  (`OverlapLosesAShell`); a late end event of an old shell deletes the entry of the new one.
  `RegistryExactIffSafe` gives the exact condition under which a step keeps registry and live shells equal.
- `checkSession` asks for a container id, not for a status, and a stopped session keeps its id, so checking a
  stopped session makes it active again. Even with calls one at a time that can break the cap and leave a user
  with two active sessions (`CheckOfAStoppedSessionBreaksTheCap`), and nothing else can (`CapHoldsIff`,
  `UsersApartIff`).
- The reaper decides by one query at the start of its tick. A heartbeat that comes while it is removing containers
  does not spare its session (`HeartbeatDuringTickIsLost`); one that comes before does (`HeartbeatSpares`).
- Deleting an account stops one active session and no solved one, so the container of a solved session within its
  grace time is left without any session until the next boot, which the comment above `deleteOwnAccount` means to
  rule out. `DeletionKeepsTidyIff` gives the exact condition.
- Starts that pass the count check together all go through: from one session below any cap, any number can
  become active (`SessionCap.BoundIsReached`).
- A window of the limiter admits at most `2 * max - 1` requests, not `2 * max`, and that many can happen
  (`WindowAdmitsLessThanTwiceMax`, `RateLimit.BoundIsReached`).
- `challenges.category_id` is nullable. The per-category totals sum to the overall one exactly when every
  active challenge has a category; the disk sync keeps it so (`CategoriesSumToTotalsIff`,
  `UncategorisedIsMissed`, `SyncedSumsAgree`).
- The comment above `verifyAuthToken` promises that a token issued before the last password change is refused.
  The code compares whole seconds, so one issued earlier in the same second is accepted
  (`SameSecondIsAccepted`); the theorems follow the code.
- `password_changed_at` is the start of the transaction. When two changes of a user overlap it can go back,
  and a token refused before is accepted again (`OverlapReadmitsAToken`, `CommitReadmitsNothingIff`).
- A migration file that sorts before an applied one is applied late; a finished boot is in directory order
  exactly when what was applied before is an initial part of the directory (`FinishedBootInOrderIff`,
  `LateFileIsAppliedLast`).
- The page's timer reference names one timer. A second lost connection while a timer is pending leaves a timer
  that a page change does not clear, and it asks for a ticket of the session left behind
  (`StrayTimerOutlivesThePage`). A page change or a stop clears every timer, at every point of a run, exactly
  when no lost connection sets a timer while one is pending (`NoStrayTimerEverIff`).
- A page change does not forget a resume that is still unanswered: its answer opens the other challenge's session
  (`PageChangeForgetsAllButTheRequest`).
- A celebration compares with whatever progress the page had cached, so with a stale cache a repeated solve of
  one challenge can be celebrated again (`StaleCacheCelebratesTwice`; `CelebratesMilestones` says exactly when).

## Model

| member | source | states |
|---|---|---|
| TerminalInvariants.RunKeeps | backend/src/services/docker.service.ts:45-152 | every step of every run keeps the registry, timer, ownership and per-shell invariants |
| TerminalTheorems.GraceExactlyWhenUnattended | backend/src/services/docker.service.ts:123-140 | in every reachable state a registered shell has its own pending grace timer exactly when no socket is attached, due 120 s after the last one left |
| TerminalTheorems.TimerEndsOnlyUnattended | backend/src/services/docker.service.ts:130-139 | a timer that fires, its container's own or one left behind, ends the registered shell exactly when it has no socket, and leaves every other entry as it was |
| TerminalTheorems.SilenceIsBounded | backend/src/ws/terminalSocket.ts:15-30 | an attached socket of a registered shell was heard from within 60 s, and a registered shell within 180 s, lost sockets apart |
| TerminalTheorems.LostSocketPinsTheShell | backend/src/ws/terminalSocket.ts:93-126 | a socket closed before its close listener exists keeps its shell registered and attended over any run, until the stream ends, the container is destroyed or another shell replaces it |
| TerminalTheorems.ClosedWhileWaitingIsLost | backend/src/ws/terminalSocket.ts:93-126 | so does one that closes at any time while it waits for the first exec: it joins the new shell as a lost socket |
| TerminalFindings.LostSocketOutlastsEveryBound | backend/src/ws/terminalSocket.ts:93-126 | for every n, a run after which such a socket's shell is still registered and attended although nobody was heard from for n sweeps |
| TerminalPeers.AnsweringPeerIsNeverTerminated | backend/src/ws/terminalSocket.ts:17-27 | a peer that answers every ping before the next sweep is never terminated, over any run |
| TerminalPeers.BridgedPeerIsNeverTerminated | backend/src/ws/terminalSocket.ts:86-94 | from its bridging on, waiting for a first exec or joined to a registered shell at once, a peer that answers every ping sent since is never terminated |
| TerminalTheorems.SentIsASlice | backend/src/services/docker.service.ts:67-72 | the shell bytes a socket was sent are one contiguous slice of its shell's output from its attach, up to now while attached and open, and nothing afterwards |
| TerminalTheorems.SliceStartsAtTheAttach | backend/src/ws/terminalSocket.ts:93-98 | over any run from its attach on, a socket's slice starts at the end of the output at the attach, to a first shell or one it came back to |
| TerminalTheorems.MirroredSocketsSeeTheSame | backend/src/services/docker.service.ts:67-72 | two sockets receiving throughout any run were sent identical bytes, exactly what the shell printed meanwhile |
| TerminalTheorems.EndedShellIsSilent | backend/src/services/docker.service.ts:74-152 | once its stream ended or its container was destroyed no socket a shell ever had is open or sent anything more, over any run |
| TerminalTheorems.DestroyEndsTheShell | backend/src/services/docker.service.ts:143-152 | destroying a container removes exactly its entry and its own timer, ends its stream and its resume check, and changes no other shell |
| TerminalBackpressure.BytesAreConserved | backend/src/services/docker.service.ts:67-72 | over any run the shell bytes and other frames given to a socket are exactly what its queue grew by and what left it |
| TerminalBackpressure.BacklogIsBounded | backend/src/services/docker.service.ts:89-120 | an attached socket has at most 4 MiB and one chunk of shell output queued, and 4 MiB when its shell is not paused, the other frames it has queued apart; a registered shell is paused exactly when its resume check is pending, within 250 ms |
| TerminalBackpressure.HysteresisOfThreeMiB | backend/src/services/docker.service.ts:32-35 | between a pause and the next resume every socket over the limit has drained more than 3 MiB or left |
| TerminalBackpressure.PausedOnlyWhileUndrained | backend/src/services/docker.service.ts:103-119 | from a pause, over any run in which the shell stays paused and its stream is not ended, each check 250 ms apart found an attached socket with 1 MiB or more queued; the first that finds none resumes it |
| TerminalBackpressure.ResumesAtFirstDrainedCheck | backend/src/services/docker.service.ts:103-119 | a check that finds an attached socket with 1 MiB or more comes again 250 ms later; one that finds none resumes the stream |
| TerminalLiveness.RegistryExactIffSafe | backend/src/services/docker.service.ts:74-85 | from a reachable state whose registry names exactly the live shells, a step keeps that if and only if a first exec finds no entry and an end event finds its own or none |
| TerminalLiveness.OrderlyRunsAreExact | backend/src/services/docker.service.ts:45-87 | without overlapping first attaches and with end events before the next attach, the registry names exactly the live shells and each container has at most one, over every run |
| TerminalFindings.OverlapLosesAShell | backend/src/services/docker.service.ts:57-86 | a concrete run of two overlapping first attaches that ends with two live shells, one unregistered |
| TerminalGrace.ReattachFindsTheSameShell | backend/src/services/docker.service.ts:45-55 | a registered shell with no earlier timer of its container pending is given, live, to an attach less than 120 s later, over any run in which nothing ended it, destroyed its container or started another |
| TerminalGrace.OnlyShellHasNoEarlierTimer | backend/src/services/docker.service.ts:123-140 | so it is when the last socket of a container's only shell so far has just left |
| TerminalGrace.FirstTimerDecides | backend/src/services/docker.service.ts:123-140 | over any such run an unattended shell stays registered while no timer pending for its container at the start is due, and nothing is registered once one of them is overdue and nobody attached |
| TerminalGrace.SurvivesIffNoTimerFiresUnattended | backend/src/services/docker.service.ts:123-140 | over any such run a registered shell stays registered if and only if no grace timer of its container, its own or one left behind, fires while it is unattended; otherwise nothing is registered |
| TerminalFindings.TimerLeftBehindCutsTheGrace | backend/src/services/docker.service.ts:74-83 | an undisturbed run of sweeps in which a shell left alone, its own timer due 120 s later, is ended after 90 s by the timer of an earlier shell |
| TerminalService.ExecRegistry.constructor | backend/src/services/docker.service.ts:37 | a fresh registry is the machine's boot state |
| TerminalService.ExecRegistry.ReachedIsSound | backend/src/services/docker.service.ts:45-152 | in every reachable state the registry names existing shells and every attached socket has its record, which is what the handlers ask |
| TerminalService.ExecRegistry.AttachOrCreateShell | backend/src/services/docker.service.ts:48-55 | up to its await it is the attach step: join the registered shell and clear its timer, or wait for an exec |
| TerminalService.ExecRegistry.ExecStarted | backend/src/services/docker.service.ts:57-86 | the exec is up: the step that registers a new shell and adds the socket |
| TerminalService.ExecRegistry.OnData | backend/src/services/docker.service.ts:67-72 | the data listener, its loop over sockets and the backpressure test are the data step |
| TerminalService.ExecRegistry.OnResumeCheck | backend/src/services/docker.service.ts:103-119 | the interval callback with its loop is the resume step |
| TerminalService.ExecRegistry.OnStreamEnd | backend/src/services/docker.service.ts:74-83 | the end and error listeners are the step that deletes the container's entry, whoever holds it |
| TerminalService.ExecRegistry.ReleaseSocket | backend/src/services/docker.service.ts:123-140 | releasing a socket in place is the release step, timer included |
| TerminalService.ExecRegistry.OnGraceTimer | backend/src/services/docker.service.ts:130-139 | the callback that re-reads the registry is the firing step |
| TerminalService.ExecRegistry.EndShellSession | backend/src/services/docker.service.ts:143-152 | ending a shell in place is the step a container's destruction takes |
| TerminalService.ExecRegistry.HeartbeatSweep | backend/src/ws/terminalSocket.ts:17-27 | the loop over all clients is the sweep step on every socket, attached or waiting |
| SessionCap.ActiveIsBounded | backend/src/services/session.service.ts:41-129 | over every interleaving with at most n starts past the count check and checks in flight at once, checks begun on active sessions, at most MAX_CONCURRENT_SESSIONS - 1 + n sessions are active |
| SessionCap.BoundIsReached | backend/src/services/session.service.ts:48-70 | for every cap, every database with one session less than the cap active and every n, n starts that pass the count check together end with MAX_CONCURRENT_SESSIONS - 1 + n active |
| SessionSequential.CapHoldsIff | backend/src/services/session.service.ts:41-129 | from within the cap, over any run of calls one at a time, the cap holds at every point if and only if no check's first update finds its session inactive while the cap is used up |
| SessionSequential.UsersApartIff | backend/src/services/session.service.ts:41-129 | likewise no user has two active sessions at any point if and only if no check's first update finds inactive a session whose user has another active one |
| SessionSequential.CheckOfAStoppedSessionBreaksTheCap | backend/src/services/session.service.ts:90-112 | a run of calls one at a time from an empty database whose last step is the first update of a check of a stopped session: it leaves two sessions active, one more than the cap, both of one user |
| SessionProgress.UpsertDescribes | backend/src/services/session.service.ts:131-143 | one upsert takes a row that describes some upserts (count, any passed, greatest hints, first pass, last time) to one that describes them and it |
| SessionProgress.ProgressDescribesTheChecks | backend/src/services/session.service.ts:105-143 | at every point of every interleaving the row describes exactly its upserts, and its count plus the checks between insert and upsert is the number of attempt rows; so are the upserts and checks with either answer to the attempts with it |
| SessionProgress.OrderChangesOnlyTimestamps | backend/src/services/session.service.ts:131-143 | the same upserts in any order give the same row but for its timestamps |
| SessionProgress.SolvedIffAnAttemptPassed | backend/src/services/session.service.ts:105-143 | at every point with no passed check of a user and challenge between insert and upsert, the challenge counts as solved if and only if some attempt at it passed |
| SessionProgress.CheckStoresItsAnswer | backend/src/services/session.service.ts:105-129 | whatever runs between its steps, a check inserts its own answer for its session and upserts it for the owner with the hints the session had when it began |
| SessionOutcomes.StartLeaves | backend/src/services/session.service.ts:41-88 | a start that goes through abandons the prior session and removes its container, adds one row, running in the new container or in error without one, and changes nothing else |
| SessionOutcomes.StartLeavesOneActive | backend/src/services/session.service.ts:57-88 | so the user has exactly the new active session, or none when launching failed |
| SessionOutcomes.RefusedStartLeavesAll | backend/src/services/session.service.ts:48-64 | a start changes nothing if and only if the cap is reached or the prior session cannot be stopped |
| SessionOutcomes.StopLeaves | backend/src/services/session.service.ts:90-96 | a stop takes effect exactly for the owner and a removable container, abandons that row and changes no other |
| SessionOutcomes.CheckLeaves | backend/src/services/session.service.ts:105-143 | a check of the owner that answered leaves its row solved at that time or running, its attempt and the progress of that user and challenge; one that threw leaves it checking; any other changes nothing |
| SessionOutcomes.ReapLeaves | backend/src/services/session.service.ts:250-274 | a tick expires a row if and only if it is active and its last activity older than the timeout, clears the container id if and only if solved and past the grace time, and leaves every other row |
| SessionOutcomes.ReapSparesTheDeserving | backend/src/services/session.service.ts:250-274 | in a tidy database a tick leaves every row that is active and not idle, or solved within its grace time, as it was and with its container |
| SessionOutcomes.HeartbeatSpares | backend/src/services/session.service.ts:98-103 | a heartbeat at t of the owner spares an active session from every tick up to the timeout later, over any calls that do not stop, check or drain it |
| SessionOutcomes.HeartbeatLeaves | backend/src/services/session.service.ts:98-103 | a heartbeat changes the last activity of the owner's active session and nothing else; of anybody else, nothing |
| SessionOutcomes.TickExpiresOnlyTheIdle | backend/src/services/session.service.ts:254-264 | whatever other calls do meanwhile, a row a tick goes on to expire was active and idle when the tick began |
| SessionOutcomes.HeartbeatDuringTickIsLost | backend/src/services/session.service.ts:254-264 | from every state with one idle session, a run in which a heartbeat comes during the tick and the session is expired and its container removed all the same |
| SessionOutcomes.DrainLeaves | backend/src/services/session.service.ts:282-292 | a drain abandons a row if and only if it is active with a container, which is gone unless removing it threw |
| SessionOutcomes.BootLeaves | backend/src/index.ts:130-134 | a boot sets a row to error if and only if it is active and its container is not there, and leaves the containers of active rows |
| SessionOutcomes.DeletionLeavesTheOthers | backend/src/services/auth.service.ts:265-279 | an account whose active session cannot be stopped is not deleted, nor anything else; otherwise every row, attempt and progress of the user is gone and everybody else's kept |
| SessionOutcomes.DeletionKeepsTidyIff | backend/src/services/auth.service.ts:265-279 | deleting an account leaves no container without its session if and only if the user had no other active or solved session whose container is still there |
| SessionService.Service.DeleteOwnAccount | backend/src/services/auth.service.ts:265-279 | the deletion in place is the one these lemmas are about; it succeeds exactly when the password is proved and the active session could be stopped |
| SessionCalls.BootReconciles | backend/src/index.ts:130-134 | from any rows and containers: afterwards every active row's container exists, none that an active row named is removed, and any other left is one whose removal threw |
| SessionCalls.SecondBoot | backend/src/index.ts:130-134 | a second boot changes nothing if and only if it cannot remove what the first could not; in particular when every removal succeeded |
| SessionCalls.BootAfterDrain | backend/src/services/session.service.ts:282-292 | a drain leaves no active row with a container and only containers it did not know or could not remove; the next boot then marks nothing and removes all it can |
| SessionCalls.CallsKeepTidy | backend/src/services/session.service.ts:41-129 | any calls one at a time keep: no two rows name one container, and every container is named by an active or solved row |
| SessionCalls.ReaperLeavesOnlyDeservedContainers | backend/src/services/session.service.ts:250-274 | after any such calls and a reaper tick every container is named by exactly one row, active and not idle, or solved within its grace time |
| SessionService.Service.StopSession | backend/src/services/session.service.ts:90-96 | in place: it refuses a session that is not the user's own; else it destroys the container and marks the row, keeping its container id, or throws and changes nothing |
| SessionService.Service.StartSession | backend/src/services/session.service.ts:41-88 | in place: the refusal of an unknown or inactive challenge, the count check, the stop of some active session of the user, the insert and its outcome, and exactly when each failure is returned |
| SessionService.Service.CheckSession | backend/src/services/session.service.ts:105-129 | in place: the check on rows, attempts and progress, its error cases included |
| SessionService.Service.UpsertRow | backend/src/services/session.service.ts:131-143 | the field-by-field upsert is the specification's upsert |
| SessionService.Service.ReapIdleSessions | backend/src/services/session.service.ts:250-274 | both loops of a tick, whatever the order of rows and whichever removals throw |
| SessionService.Service.DrainAllActiveSessions | backend/src/services/session.service.ts:282-292 | the drain marks every active row with a container and counts them |
| SessionService.Service.ListActiveContainerIds | backend/src/services/session.service.ts:294-300 | it returns exactly the containers of active rows |
| SessionService.Service.ReconcileOrphans | backend/src/services/docker.service.ts:341-352 | the loop leaves exactly the known containers and those whose removal threw |
| SessionService.Service.MarkOrphanedSessionsError | backend/src/services/session.service.ts:302-309 | the loop marks exactly the active rows whose container is gone |
| SessionService.Service.Bootstrap | backend/src/index.ts:130-134 | the boot order in place is the specification the boot lemmas are about |
| SessionAlone.StopAlone | backend/src/services/session.service.ts:90-96 | every result of the stop function, refusals included, is that of a run of the call alone in the interleaved machine |
| SessionAlone.StartAlone | backend/src/services/session.service.ts:41-88 | so is every result of a start, for every prior session, time of the insert and Docker outcome |
| SessionAlone.CheckAlone | backend/src/services/session.service.ts:105-129 | so is every result of a check, for every answer of the script and times of its updates |
| SessionAlone.ReapAlone | backend/src/services/session.service.ts:250-274 | so is every result of a reaper tick, time passing between its two queries |
| SessionAlone.DrainAlone | backend/src/services/session.service.ts:282-292 | so is every result of a drain |
| SessionLone.EveryStop | backend/src/services/session.service.ts:90-96 | every complete run of a stop alone ends with a result of the function, for some outcome of the removal |
| SessionLone.EveryStart | backend/src/services/session.service.ts:41-88 | so does every start alone, for a prior session the query may return |
| SessionLone.EveryCheck | backend/src/services/session.service.ts:105-129 | so does every check alone |
| SessionLone.EveryReap | backend/src/services/session.service.ts:250-274 | so does every reaper tick alone, whatever order its queries give and whichever removals throw |
| SessionLone.EveryDrain | backend/src/services/session.service.ts:282-292 | so does every drain alone |
| ProgressOverview.CategoriesSumToTotalsIff | backend/src/routes/progress.routes.ts:13-41 | for any catalogue and progress table, category totals sum to the overall total if and only if every active challenge has a category, and solved counts if and only if every solved active one has |
| ProgressOverview.UncategorisedIsMissed | backend/src/routes/progress.routes.ts:13-41 | a catalogue with one active challenge without a category, counted in the total and in no category |
| ProgressOverview.ListAgrees | backend/src/services/challenge.service.ts:157-173 | each category's counts are those of the list's rows and of their solved flags |
| ProgressOverview.ListTotals | backend/src/services/challenge.service.ts:157-173 | with every active challenge categorised the overall counts are those of the whole list |
| ProgressOverview.InactiveCountsNowhere | backend/src/routes/progress.routes.ts:13-41 | a challenge that is not active changes neither the overview nor the list, whatever its category and progress |
| ProgressOverview.ActiveCountsOnce | backend/src/routes/progress.routes.ts:13-41 | an active one adds one to the total and to its category's total, one to both solved counts if the user solved it, one row to the list, and changes no other category |
| ProgressOverview.SyncedSumsAgree | backend/src/services/challenge.service.ts:79-155 | on every catalogue the disk sync has filled the sums agree |
| ProgressOverview.SeedingSetsTheFixedOnes | backend/src/services/challenge.service.ts:67-77 | each fixed category has its name and position afterwards, every other is as it was |
| ProgressOverview.SyncTakesTheLastDirectory | backend/src/services/challenge.service.ts:79-155 | after a sync a challenge has the category of its last complete directory with a known category, and keeps its active flag or is active if new |
| ProgressOverview.SyncLeavesOthers | backend/src/services/challenge.service.ts:86-104 | a challenge with no such directory is untouched |
| ProgressOverview.Store.SeedCategories | backend/src/services/challenge.service.ts:67-77 | the loop in place is the seeding the lemma is about |
| ProgressOverview.Store.SyncChallengesFromDisk | backend/src/services/challenge.service.ts:79-155 | the loop in place, with its skipped directories, is the sync the lemmas are about |
| Celebrations.CelebratesMilestones | frontend/src/pages/ChallengeDetailPage.tsx:160-194 | for every table the page may have cached, a passed check is celebrated as the first solve exactly when nothing active was solved there and nothing but its challenge is now, else as completing its category exactly when that was incomplete there and is complete now |
| Celebrations.CelebrationsOfARun | frontend/src/pages/ChallengeDetailPage.tsx:343-368 | over any run of checks by a new user, with a cache as old as any earlier check, which celebration each check gets |
| Celebrations.CelebrationsWhenCurrent | frontend/src/pages/ChallengeDetailPage.tsx:343-368 | with a current cache the first passing check alone is the first solve, and a category is celebrated exactly at the later check that was its last one missing |
| Celebrations.StaleCacheCelebratesTwice | frontend/src/pages/ChallengeDetailPage.tsx:343-368 | two passed checks of one challenge, both celebrated as the first solve because of an older cache |
| RateLimit.BucketAdmitsAtMostMax | backend/src/middleware/rateLimit.ts:36-42 | from its opening until it expires a bucket admits at most max requests |
| RateLimit.WindowAdmitsLessThanTwiceMax | backend/src/middleware/rateLimit.ts:26-50 | any half-open interval one window long admits at most 2 * max - 1 requests of a key |
| RateLimit.BoundIsReached | backend/src/middleware/rateLimit.ts:26-50 | for every max and every window of two milliseconds or more some requests reach that bound |
| RateLimit.NothingAdmitsNothing | backend/src/middleware/rateLimit.ts:42-48 | with max 0 nothing is ever admitted |
| RateLimit.RetryAfterAtLeastOne | backend/src/middleware/rateLimit.ts:42-44 | every refusal's Retry-After (section 10.2.3 of RFC 9110) is at least 1 if and only if the window or max is positive |
| RateLimit.WaitingIsRewarded | backend/src/middleware/rateLimit.ts:36-49 | after the seconds it was told, the key's first request in the new bucket is admitted, whatever came before the old one expired |
| RateLimit.NoSecondTooMany | backend/src/middleware/rateLimit.ts:42-48 | a second less than it was told is too early: the bucket has not expired and the request is refused again |
| RateLimit.SweepsAndOthersDoNotMatter | backend/src/middleware/rateLimit.ts:26-41 | with sweeps at arbitrary times and any other keys, every request has the outcome it would have alone with no sweeper |
| RateLimit.StoredBucketsAreRecent | backend/src/middleware/rateLimit.ts:26-30 | with sweeps on schedule every stored bucket was opened less than two windows ago |
| RateLimit.RateLimiter.OnSweep | backend/src/middleware/rateLimit.ts:26-29 | the loop over the map deletes exactly the expired buckets |
| RateLimit.RateLimiter.OnRequest | backend/src/middleware/rateLimit.ts:32-50 | the in-place middleware gives the specification's bucket and verdict |
| ResetTokens.TokenIsUsedOnce | backend/src/services/auth.service.ts:213-240 | over every interleaving with row locks a reset token commits at most one password change |
| ResetTokens.PasswordAndTokenTogether | backend/src/services/auth.service.ts:224-232 | a token is marked used exactly when a change it paid for is committed, at the same stamp, and each user's password and change time are those of the latest committed write |
| ResetTokens.NoExpiredTokenCommits | backend/src/services/auth.service.ts:218-223 | no committed reset began at or after its token's expiry |
| ResetTokens.ResetsOfAUserTakeTurns | backend/src/services/auth.service.ts:224-232 | over every interleaving at most one reset of a user, with whatever tokens, is between its update and its commit |
| AuthTokens.AcceptedIffIssuedAfterEveryChange | backend/src/services/auth.service.ts:47-68 | with one change of a user at a time a token is accepted if and only if its user exists, it is under seven days old, and it was issued no earlier than the start of the second of every change so far (`iat` and `exp`, sections 4.1.6 and 4.1.4 of RFC 7519) |
| AuthTokens.AcceptedUntilALaterSecond | backend/src/services/auth.service.ts:33-68 | a token issued now stays accepted exactly until expiry, deletion or a change stamped in a later second |
| AuthTokens.SameSecondIsAccepted | backend/src/services/auth.service.ts:60-65 | a run with one change at a time after which a token issued before the change, in its second, is accepted |
| AuthTokens.CommitReadmitsNothingIff | backend/src/services/auth.service.ts:122-135 | a committing change accepts no token refused before if and only if its stamp is in no earlier second than the one it overwrites |
| AuthTokens.OverlapReadmitsAToken | backend/src/services/auth.service.ts:213-232 | a run of two overlapping changes after which a token older than a committed change is accepted again |
| AuthService.AuthStore.ResetPasswordWithToken | backend/src/services/auth.service.ts:213-240 | for every failing query, a commit whose reply is lost included, the tables are as after the whole reset or as before it; it succeeds exactly when the token is usable and nothing throws |
| AuthService.AuthStore.ChangePassword | backend/src/services/auth.service.ts:122-135 | it changes the password and its stamp exactly when the account exists and the current password is right |
| AuthService.AuthStore.RequestPasswordReset | backend/src/services/auth.service.ts:180-201 | it stores a token that lives one hour exactly when the account exists |
| AuthService.AuthStore.VerifyAuthToken | backend/src/services/auth.service.ts:47-68 | it returns the subject exactly for a well-signed, unexpired token of the auth kind with a subject and an issue time whose user accepts it, so exactly for accepted tokens among those it signs |
| AuthService.ResetAlone | backend/src/services/auth.service.ts:213-240 | the tables the service's call leaves are those of a run of the reset alone in the interleaved model |
| AuthService.EveryReset | backend/src/services/auth.service.ts:213-240 | every complete run of a reset alone, rolled back anywhere or not, leaves the tables as after the whole reset or as before it |
| AuthService.RequestedTokenResetsForAnHour | backend/src/services/auth.service.ts:180-240 | whatever happens after a request short of the account's deletion, a reset run alone gives the user the new password and marks the token used if and only if it was requested less than an hour before and has paid for no change; otherwise it changes nothing |
| Migrations.EachFileTakesEffectOnce | backend/src/db/migrate.ts:39-72 | over any boots, one after the other or with their queries interleaved, private writes, waiting and refused inserts, lost commits and cuts at any query: the table names exactly the files whose SQL took effect, each once |
| Migrations.EveryBoot | backend/src/db/migrate.ts:54-71 | every boot that runs alone, wherever it is cut off, leaves the database the loop leaves for some outcome of each file, a finished loop when the boot ends with nothing left to do |
| Migrations.LoopAppendsMissing | backend/src/db/migrate.ts:54-71 | a boot appends the missing files in order from the first, all of them when it finishes |
| Migrations.AppliedIsAPrefix | backend/src/db/migrate.ts:49-72 | when new files sort last the applied list is always an initial part of the sorted directory, and all of it once a boot finished |
| Migrations.NewFilesSortLastIffPrefix | backend/src/db/migrate.ts:49-52 | new files all sort after the old ones exactly when the old listing is a prefix of the new one |
| Migrations.FinishedBootInOrderIff | backend/src/db/migrate.ts:54-71 | a finished boot is in directory order if and only if what was applied before is an initial part of the directory |
| Migrations.FinishedBootAppliesTheSqlFiles | backend/src/db/migrate.ts:49-71 | a finished boot has applied, of the directory, exactly the files whose names end in .sql |
| Migrations.LateFileIsAppliedLast | backend/src/db/migrate.ts:54-71 | a finished boot that applies a file sorting between two applied ones last |
| Migrations.Migrator.WaitForDatabase | backend/src/db/migrate.ts:19-34 | it succeeds exactly when one of the attempts does, at the first that does, sleeping once between attempts |
| Migrations.Migrator.RunMigrations | backend/src/db/migrate.ts:36-72 | the loop in place is the specification's boot, and its failures name a file that was not applied |
| Reconnect.SchedulesNextDelays | frontend/src/pages/ChallengeDetailPage.tsx:408-434 | without a connect, toast, stop or page change the page schedules exactly the next stretch of the five delays |
| Reconnect.AtMostFiveInARow | frontend/src/pages/ChallengeDetailPage.tsx:97 | so at most five reconnects in a row, in every reachable state |
| Reconnect.RefillGivesTheWholeBudget | frontend/src/pages/ChallengeDetailPage.tsx:408-443 | after a connect, the toast of an exhausted budget, a stop or a page change the page schedules the five delays from the first |
| Reconnect.EveryLossIsAnswered | frontend/src/pages/ChallengeDetailPage.tsx:408-434 | over any run the connections lost while not stopping are as many as the timers set and the toasts shown together |
| Reconnect.ReportIsShown | frontend/src/pages/ChallengeDetailPage.tsx:436-443 | the status shown is the terminal's latest report that a stop did not suppress |
| Reconnect.StoppingIff | frontend/src/pages/ChallengeDetailPage.tsx:316-341 | the page is stopping exactly when a stop was clicked and since then no stop failed, nothing was started and the page did not change |
| Reconnect.NoTimerRequestsAfterStop | frontend/src/pages/ChallengeDetailPage.tsx:425-433 | until then no timer asks for a ticket, none is set, no connection is reported lost and none shown as disconnected |
| Reconnect.StoppedSessionIsNotResumed | frontend/src/pages/ChallengeDetailPage.tsx:227-287 | once a stop clicked on a page has succeeded, its session is never the page's session again over any run without a page change, by a report of the server or by a request still unanswered |
| Reconnect.ReportedSessionIsResumed | frontend/src/pages/ChallengeDetailPage.tsx:268-287 | a reported session is asked for if and only if it is this page's, the page has none, waits for no answer and did not stop it; and its answer, over any run still waiting for it, opens it |
| Reconnect.LostConnectionGetsANewTicket | frontend/src/pages/ChallengeDetailPage.tsx:408-434 | a lost connection's timer, when it fires while not stopping, asks for a ticket of that session, and the answer is the open session's new ticket |
| Reconnect.FailureAllowsTheNextRequest | frontend/src/pages/ChallengeDetailPage.tsx:275-284 | after a failed request the next report of a session is asked for and opened |
| Reconnect.PageChangeForgetsAllButTheRequest | frontend/src/pages/ChallengeDetailPage.tsx:251-287 | a page change forgets the session and every stop, but the answer of a resume asked for before it opens the other page's session |
| Reconnect.NoStrayTimerEverIff | frontend/src/pages/ChallengeDetailPage.tsx:243-262 | over any run from a fresh page, a page change or stop at any point leaves no reconnect timer pending if and only if no lost connection sets a timer while one is pending |
| Reconnect.FiredTimerForgetsTheOthers | frontend/src/pages/ChallengeDetailPage.tsx:425-433 | whichever timer fires clears the page's reference, so a page change then leaves every other timer pending |
| Reconnect.StrayTimerOutlivesThePage | frontend/src/pages/ChallengeDetailPage.tsx:422-433 | a run in which a forgotten timer asks for a ticket of the session left behind |
| Reconnect.ReconnectsWithin23Seconds | frontend/src/pages/ChallengeDetailPage.tsx:94-97 | from a lost connection on, all time beyond 23 s is spent with no timer pending, on requests and connects |
| Reconnect.ConnectedWithin23Seconds | frontend/src/pages/ChallengeDetailPage.tsx:94-97 | the same beyond the connect that gives the budget back, for as long as that connection is not lost |
| PageService.ChallengeDetailPage.HandleUnexpectedExit | frontend/src/pages/ChallengeDetailPage.tsx:408-434 | the handler in place is the exit step |
| PageService.ChallengeDetailPage.HandleTerminalStatusChange | frontend/src/pages/ChallengeDetailPage.tsx:436-443 | the status handler, its suppression and its refill of the budget |
| PageService.ChallengeDetailPage.OnReconnectTimer | frontend/src/pages/ChallengeDetailPage.tsx:425-433 | the timer's callback, which clears the reference whichever timer it is |
| PageService.ChallengeDetailPage.HandleStop | frontend/src/pages/ChallengeDetailPage.tsx:316-327 | the stop click up to its request |
| PageService.ChallengeDetailPage.OnSlugChange | frontend/src/pages/ChallengeDetailPage.tsx:251-262 | the reset effect |
| PageService.ChallengeDetailPage.ResumeEffect | frontend/src/pages/ChallengeDetailPage.tsx:268-287 | it asks to resume a reported session only when it is this page's, the page has none, no request is unanswered and the page did not stop it |
| PageService.ChallengeDetailPage.OnTicketSettled | frontend/src/pages/ChallengeDetailPage.tsx:275-284 | the answer of the latest request: a resume opens its session, a refresh gives the open session its ticket |
| SameShell.ReconnectGetsTheSameShell | frontend/src/pages/ChallengeDetailPage.tsx:408-443 | when both ends see the drop together, no earlier timer of the container is pending (as when the shell is its only one so far) and all time without a pending reconnect timer sums below 97 s, up to and beyond the page's connect, the attach that gets through is given the same shell if it was neither ended nor destroyed |

## Left out

- TerminalTheorems.SilenceIsBounded: excludes sockets that closed before their close listener existed, for which the bound is false; `LostSocketPinsTheShell` shows what happens to them.
- TerminalBackpressure.BacklogIsBounded: the chunk is the last one the shell printed; the control frames still queued on a socket are not bounded, because nothing in the server bounds them.
- SessionCap.ActiveIsBounded: supposes that checks begin on active sessions; without that the bound is false.
- SessionCalls.ReaperLeavesOnlyDeservedContainers: supposes Docker calls that succeed, and no account deletion, whose effect is that of `DeletionKeepsTidyIff`.
- SessionProgress.ProgressDescribesTheChecks: no crashes between insert and upsert and no deleted rows.
- AuthTokens.AcceptedIffIssuedAfterEveryChange: a change counts from the start of its transaction, so a token issued before the commit but after that start is accepted.
- SameShell.ReconnectGetsTheSameShell: one backend process throughout, and both ends seeing the drop at the same instant.
- Celebrations.CelebratesMilestones: the refetch after a check succeeds and is current.
- ProgressOverview.Store.SyncChallengesFromDisk: the hints and the texts of a challenge, which no query here reads, are not modelled.
- Aliasing of shell objects: a shell is an id into a map, so two references to one object are one id.
- `ended_at`, `started_at`, `container_name` and attempt output: written, never read by what is modelled.
- SessionOutcomes.DeletionKeepsTidyIff: account deletion is modelled with session calls one at a time and, apart from them, in the token model; not interleaved with session calls.
- SessionCalls.CallsKeepTidy: creating and starting a container is one action that succeeds or leaves nothing; a container created but not started is a leftover that only the boot lemmas cover.
- Docker, PostgreSQL, bcrypt, JWT signatures, WebSocket framing and the browser: abstract operations that succeed or fail.
- Image builds, resource limits, hints, explain steps, help requests, mail, routes and validation: single-function facts.
- Login, signup beyond its first password write, and the lookup of accounts by email, which is a parameter.
- Ticket lifetimes of the socket upgrade, and the shutdown deadline around the drain.
- React rendering and effect scheduling: each handler sees the state of the latest render.
