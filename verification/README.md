# Greyward: verified models

Dafny models of the parts of Greyward where a crash, a replay or a second look at the same
data matters, with proofs over every input or every run. `dafny verify dfyconfig.toml` checks
the project.

| files | what they model |
|---|---|
| `office_model`, `office_remote`, `office_release`, `office_client` | the Office release ledger: the decisions over the state file, GitHub as releases, tags, pointer, snapshots and clock, each operation as the list of calls it makes, and the workflow as a process that can die between any two calls |
| `office_invariant`, `office_safety`, `office_history`, `office_reuse`, `office_progress`, `office_cleanup`, `office_witness` | what holds over whole runs of that workflow, and runs that show where it stops |
| `patches` | the two independent exact patch appliers |
| `enrollment`, `enrollment_safety`, `enrollment_recovery`, `enrollment_program`, `enrollment_witness` | the first-boot enrollment transaction, its restarts and its rollback, and the crashes it cannot be resumed from |
| `review_leases`, `review_session` | leases on reviews and launches between session and root broker |
| `event_ingestion`, `event_reader`, `telemetry` | the cursor over the broker's log, the live counters and the telemetry store |
| `event_log`, `event_counting` | that reader together with the broker's log, over appends, restarts and failures: what is lost and what is counted twice |
| `desktop_layout`, `base64url`, `output_identity` | icon placement over outputs, its settings file and its position files |
| `newc_archive`, `newc_roundtrip`, `newc_accepted`, `newc_backward` | the reader of the installer's branding archive |
| `encrypted_root` | the search for the container under the mounted root |
| `candidate_lock` | acceptance of a candidate source lock, and chains of them |
| `baseline_settings`, `baseline_exact` | the projection of settings onto the repository's defaults, and which defaults it fits |

Time is an integer: microseconds in the Office ledger, nanoseconds in the session. Every
answer from outside (GitHub, the bus, the clock, the store, a sync) is an argument of the step
that meets it, so a list of steps fixes a run, and statements about all lists are statements
about all runs. A crash is a prefix of the calls or steps of an operation.

Where the code does less than its documentation or its comments promise, the model follows the
code and the theorem carries the exact condition:

- A tag stays with one release exactly if staging starts within 48 h of the recorded claim
  (`OfficeReuse.TagsUniqueExactly`); a reservation of ten digits leaves a ledger that no
  operation accepts any more (`OfficeReuse.NineDigitsExactly`, `OfficeReuse.RejectedForever`).
  The other statements over runs of that workflow are about runs that claim numbers of at most
  nine digits.
- A patch accepted with an insertion beyond the end of the file cannot be reversed
  (`Patches.ReverseRestores`), and a single occurrence as counted without overlaps does not fix
  a position (`Patches.AgreeExactly`, `Patches.OverlapDisagrees`).
- An enrollment cannot be resumed after a crash inside the write of the context file, keeps
  mode 0600 and no label after one right behind it (`EnrollmentRecovery.RestartExactly`), and
  cannot be resumed once the broker knows an account
  (`EnrollmentRecovery.ActivationRestartsExactly`), and every machine can be brought there
  (`EnrollmentWitness.TornReached`, `EnrollmentWitness.RegisteredReached`); the comment that power loss cannot strand
  first boot holds for the generated trees only.
- The telemetry store reports a duplicate as recorded and swallows its own failures
  (`Telemetry.Store.RecordEvent`, `Telemetry.DuplicateUnseen`), so live counters count replays and
  a dropped event is passed over (`EventCounting.CountsExactly`, `EventLog.NothingLostExactly`). An empty reply moves the cursor, too; a broker that restarted
  under its old name would lose events by it (`EventLog.RestartLosesEvent`), one under a new name
  does not, and the reader's own case for a restart is never taken
  (`EventLog.RestartsLoseNothing`, `EventLog.RestartCaseUnused`).
- The UI lease exceeds the remainder by more than 1 ms if the clock passes its end between the
  check and the display (`ReviewLeases.PreviewShows`).
- The layout in memory agrees with the file exactly if the file had one key per name
  (`DesktopLayout.AgreementExactly`).
- The archive reader takes a sign in a size field, so an offset can go back
  (`NewcAccepted.OffsetsRiseExactly`, `NewcBackward.AcceptedBackward`).
- A font record is immutable only while every lock lists its commit
  (`CandidateLock.ListedFontKept`, `CandidateLock.UnlistedFontChanges`).
- A capture can always be staged exactly if each bar hidden by a later one of its identifier is
  absorbed by it (`BaselineExact.StageableExactly`); distinct identifiers are enough
  (`BaselineSettings.Idempotent`), being one's own projection is not
  (`BaselineExact.OwnProjectionFails`).

## Model

| member | source | states |
|---|---|---|
| `OfficeHistory.ChannelServed` | packaging/greyward-office/automation/release.py:38-103 | Over every run of operations with a crash between any two API calls: a current generation means the public pointer is the snapshot URL of its own metadata commit, that commit holds the metadata of that generation, and every generation on offer or withdrawn for less than 48 h still has its public release and its tag at the commit it was built from. |
| `OfficeHistory.RetentionHolds` | packaging/greyward-office/automation/model.py:114-135 | Over every run the ledger passes validation, holds at most 3 generations on offer and 1 withdrawn, `current` is the newest on offer, every number is below `nextGeneration`, and a draft and a withdrawn generation never coexist. |
| `OfficeHistory.EveryCallLawful` | packaging/greyward-office/automation/release.py:73-103 | Every single call any operation of any run makes, at every crash point, is lawful: a release or tag is deleted only if it is tracked and its 48 h are over and the channel is verified, and a draft takes the reserved number only while no release carries it. |
| `OfficeHistory.NumbersNeverReused` | packaging/greyward-office/automation/release.py:118-127 | Between any two moments of a run each claim reserves a number above every earlier claim, every number in the ledger and every tag ever issued. |
| `OfficeHistory.CadenceHolds` | packaging/greyward-office/automation/model.py:90-111 | Between any two moments of a run: the completed cycle never falls and never passes the current cycle, an unforced claim waits for the 144 h boundary after a completed cycle and comes at least 24 h after the recorded time of every earlier claim. |
| `OfficeHistory.SpacingInRealTime` | packaging/greyward-office/automation/model.py:23-26 | Recorded times are cut to seconds, so in real time an unforced claim comes more than 24 h less one second after every earlier one. |
| `OfficeWitness.ClosestClaims` | packaging/greyward-office/automation/model.py:107-110 | That bound is exact to the microsecond: from every fresh component a run whose two unforced claims lie 24 h less 999,999 microseconds apart. |
| `OfficeSafety.RunSafe` | packaging/greyward-office/automation/release.py:106-136 | The channel invariant holds after every run that claims numbers of at most nine digits: any operations, any times, any crash points. |
| `OfficeSafety.StepSafe` | packaging/greyward-office/automation/release.py:377-404 | One process of any operation, cut after any number of calls, keeps the channel invariant, and every call it makes is lawful where it is made. |
| `OfficeSafety.PromotionOf` | packaging/greyward-office/automation/model.py:114-135 | In a reachable ledger a promotion of the pending reservation never raises, and the fourth generation withdraws exactly the oldest. |
| `OfficeSafety.CleanReads` | packaging/greyward-office/automation/release.py:73-91 | In a reachable world the cleanup finds no drifted identity and has at most one thing to remove. |
| `OfficeReuse.TagsUniqueExactly` | packaging/greyward-office/automation/transfer.py:50-62 | No tag is issued to two releases in all runs whose stage and publish processes start less than d after the recorded claim, if and only if d is at most 48 h. |
| `OfficeReuse.ReissueRun` | packaging/greyward-office/automation/release.py:83-91 | The concrete run behind the other half: a draft expires after 48 h, the same run stages again, and one tag has been given to two releases. |
| `OfficeReuse.NineDigitsExactly` | packaging/greyward-office/automation/model.py:8-8 | After a claim and its first staging the ledger is accepted exactly when the reserved number has at most nine digits. |
| `OfficeReuse.RejectedForever` | packaging/greyward-office/automation/release.py:33-35 | Once the ledger is rejected no operation changes anything again. |
| `OfficeProgress.NeverStuck` | packaging/greyward-office/automation/model.py:90-111 | From every world a run reaches, 144 h later, with the policy enabled and calls succeeding, at most three steps of gate and verify reach a due claim. |
| `OfficeProgress.NotBeforeNextCycle` | packaging/greyward-office/automation/model.py:106-107 | That bound is tight: after a cycle completed at its own boundary no continuation has an unforced claim before the next boundary. |
| `OfficeWitness.BoundaryReached` | packaging/greyward-office/automation/release.py:183-189 | Such a moment is reached: every fresh component that claims and completes at its epoch stands at the boundary of its completed cycle. |
| `OfficeProgress.ReachableCleanable` | packaging/greyward-office/automation/release.py:73-103 | Every world a run reaches with a verified channel satisfies what the cleanup theorems below ask for. |
| `OfficeCleanup.CleanupIdempotent` | packaging/greyward-office/automation/release.py:94-102 | After any number of cleanups cut after any number of deletions, at any earlier times, the first completed one leaves the releases, tags and ledger of one uninterrupted run. |
| `OfficeCleanup.CleanResumes` | packaging/greyward-office/automation/release.py:94-102 | A cleanup that was cut off, or completed, leaves a world a later cleanup can finish, with the result an uninterrupted later one would have. |
| `OfficeCleanup.CleanupExact` | packaging/greyward-office/automation/release.py:73-103 | A completed cleanup removes exactly the withdrawn generations and the draft whose 48 h are over, releases and tags and ledger entries alike, and touches nothing else. |
| `OfficeCleanup.DoomGrows` | packaging/greyward-office/automation/model.py:138-155 | What a cleanup would remove only grows with time. |
| `OfficeCleanup.DoomedGenerationsTracked` | packaging/greyward-office/automation/model.py:145-154 | A generation is removed exactly if the ledger tracks it as withdrawn for 48 h and it is neither kept nor current. |
| `OfficeModel.ActiveIsOffered` | packaging/greyward-office/automation/model.py:84-87 | `active` is exactly the generations not withdrawn, by falling number. |
| `OfficeModel.ActiveFalls` | packaging/greyward-office/automation/model.py:46-67 | In a ledger that passes validation the numbers of `active` fall strictly. |
| `OfficeModel.PromoteRetains` | packaging/greyward-office/automation/model.py:114-135 | After a promotion the active generations are the three newest of the new one and the old ones, the new one is current, every record keeps its identity and at most gains a withdrawal time, and the reservation exceeds every number. |
| `OfficeModel.PromoteIdempotent` | packaging/greyward-office/automation/model.py:118-122 | Promoting the same generation again, at any later time and cycle, changes nothing. |
| `OfficeModel.PromoteLedger` | packaging/greyward-office/automation/model.py:114-135 | The copy, append and withdraw loop returns what the promotion function says, error cases included. |
| `OfficeModel.WithdrawEach` | packaging/greyward-office/automation/model.py:132-133 | The withdrawal loop marks exactly the generations past the three kept. |
| `OfficeModel.CleanupPlan` | packaging/greyward-office/automation/model.py:138-155 | The planning loop returns the items of every removable generation in order, and an error exactly for an invalid ledger or a drifted remote identity. |
| `OfficeRemote.PerformConcat` | packaging/greyward-office/automation/github.py:75-89 | Running two lists of calls with a budget is running the first and then the second with what is left, so a crash is exactly a prefix. |
| `OfficeClient.GitHub.Clean` | packaging/greyward-office/automation/release.py:73-103 | The cleanup as a process on the remote object: at every crash point exactly the first calls of its plan have taken effect, and the returned ledger is the plan's. |
| `OfficeClient.GitHub.Delete` | packaging/greyward-office/automation/release.py:94-101 | The deletion loop: check the tag, delete the release, delete the tag, drop the entry, then one commit. |
| `OfficeClient.GitHub.DeleteItem` | packaging/greyward-office/automation/release.py:96-98 | One item: its release if it was listed, then its tag if it is there, as far as the process gets. |
| `OfficeClient.GitHub.Gate` | packaging/greyward-office/automation/release.py:106-136 | The gate as a process: cleanup, decision, and a claim or a verification attempt; a due claim leaves the ledger reserved for this run, cycle and number. |
| `OfficeClient.GitHub.Claim` | packaging/greyward-office/automation/release.py:112-136 | The second half of the gate on the ledger the cleanup left. |
| `OfficeClient.GitHub.Checkpoint` | packaging/greyward-office/automation/release.py:183-189 | Only the run that owns the attempt completes its cycle, and never lowers it. |
| `OfficeClient.GitHub.Cleanup` | packaging/greyward-office/automation/release.py:391-394 | The cleanup command on the loaded ledger. |
| `OfficeClient.GitHub.Draft` | packaging/greyward-office/automation/transfer.py:55-60 | Draft release first, then the ledger that tracks it. |
| `OfficeClient.GitHub.Stage` | packaging/greyward-office/automation/transfer.py:44-62 | Staging as a process: ownership, then find or create the draft, then refuse an untracked or public one. |
| `OfficeClient.GitHub.Publish` | packaging/greyward-office/automation/release.py:273-353 | Publication as a process, from ownership to the confirmed channel. |
| `OfficeClient.GitHub.Promotion` | packaging/greyward-office/automation/release.py:317-351 | From the known release: make public, promote, stage metadata, offer, switch pointer, confirm. |
| `OfficeClient.GitHub.Switch` | packaging/greyward-office/automation/release.py:333-351 | Snapshot commit, offer, atomic ledger and pointer commit, confirmation. |
| `OfficeClient.GitHub.VerifyChannel` | packaging/greyward-office/automation/release.py:356-374 | Recovery of an interrupted verification; it also re-offers the current release. |
| `OfficeClient.GitHub.Process` | packaging/greyward-office/automation/release.py:377-404 | One process of a run from start to end or crash lands where the run model says, and the channel invariant survives. |
| `OfficeClient.GitHub.ReleaseFor` | packaging/greyward-office/automation/transfer.py:50-54 | A release of that tag, if there is one. |
| `OfficeClient.GitHub.ItemsToClean` | packaging/greyward-office/automation/release.py:77-91 | The items of the cleanup: the plan over the tracked releases that exist, then the expired draft. |
| `Patches.ApplyExact` | packaging/greyward-dms/assemble.py:64-82 | The cursor loop returns the splice of the hunks into the file, or an error exactly for an overlapping or mismatching hunk. |
| `Patches.SpliceLength` | packaging/greyward-dms/assemble.py:79-81 | The length changes by exactly the sum of new minus old. |
| `Patches.LinesOutsideKept` | packaging/greyward-dms/assemble.py:79-81 | Every line outside the hunks keeps its bytes and moves by the gains of the hunks at or before it. |
| `Patches.ReverseRestores` | packaging/greyward-dms/assemble.py:62-82 | For every accepted patch the reversed patch at the shifted positions restores the file when every hunk lies inside it; otherwise, with an insertion beyond the end of the file, the reversed patch is refused. |
| `Patches.ExactAdaptations` | packaging/greyward-office/automation/model.py:181-201 | The replace loop returns the adapted text, or an error exactly when some old text is empty or not counted once. |
| `Patches.AppliersAgree` | packaging/greyward-office/automation/model.py:195-200 | Where the positional applier accepts and each old text is non-empty and stands at one position only in the text it is applied to, replacing unique occurrences in turn gives the same file. |
| `Patches.AgreeExactly` | packaging/greyward-office/automation/model.py:189-201 | Where the positional applier accepts, replacing by content comes to the same text after every hunk exactly when each old text is counted once and its new text can be moved over what lies between the first place where the old one stands and the place the position names. |
| `Patches.ReplaceAgrees` | packaging/greyward-office/automation/model.py:198-200 | For one counted occurrence: replacing the first place and replacing the named one give one text exactly when the new text slides over the bytes between them. |
| `Patches.OverlapDisagrees` | packaging/greyward-office/automation/model.py:198-200 | A hunk whose old text overlaps itself: both appliers accept it and disagree. |
| `EnrollmentSafety.RunKeeps` | packaging/greyward-enrollment/enroll.py:250-466 | After any attempts at prepare, check and rollback, each stopped after any step, the machine is as it was found, in preparation, or beyond it with the recorded previous mappings, the kept snapshot and the prepared inputs. |
| `EnrollmentSafety.NothingMappedBeforeInputs` | packaging/greyward-enrollment/enroll.py:289-390 | Over every such run: no account is mapped or known to the broker before the inputs are prepared; the policy differs from the one found only if the snapshot of the one found is kept. |
| `EnrollmentRecovery.PendingMeansMapped` | packaging/greyward-enrollment/enroll.py:428-442 | From any machine and with a crash at any step, prepare reaches the pending phase only with every account mapped to the guard. |
| `EnrollmentRecovery.RestartExactly` | packaging/greyward-enrollment/enroll.py:289-390 | A preparation restarted wherever an earlier one stopped reaches the same receipt, trees, snapshot, policy and mappings as an uninterrupted one exactly when the context file is not cut short; the file ends readable and labelled unless an earlier attempt stopped between its text and its mode and label. |
| `EnrollmentRecovery.RunRestarts` | packaging/greyward-enrollment/enroll.py:100-133 | The same over any run: still in preparation, the next undisturbed preparation commits the inputs a first one would have committed, or refuses because of the context file. |
| `EnrollmentRecovery.TornStays` | packaging/greyward-enrollment/enroll.py:365-373 | A context file cut short stays, and so does the phase, however often prepare is tried. |
| `EnrollmentWitness.TornReached` | packaging/greyward-enrollment/enroll.py:371-373 | On every machine a first attempt that dies between opening the context file and writing its text leaves it cut short in preparation, which can then not be resumed. |
| `EnrollmentWitness.RegisteredReached` | packaging/greyward-enrollment/enroll.py:408-411 | On every machine a first attempt that dies behind its first registration with the broker leaves inputs prepared and no account mapped, and no activation completes. |
| `EnrollmentRecovery.PrepareEnrols` | packaging/greyward-enrollment/enroll.py:397-442 | From first boot or any interrupted preparation without a torn context file, an undisturbed prepare ends with every account enrolled. |
| `EnrollmentRecovery.FinishingExactly` | packaging/greyward-enrollment/enroll.py:397-442 | With no outside refusal, the activation completes exactly when its receipt, inputs and mappings are unchanged, the broker knows none of the accounts and no sudo rule is in the way; then every account is enrolled. |
| `EnrollmentRecovery.ActivationRestartsExactly` | packaging/greyward-enrollment/enroll.py:397-411 | On a machine this transaction prepared, the activation can be run to its end exactly as long as no earlier one registered an account. |
| `EnrollmentRecovery.RollbackExactly` | packaging/greyward-enrollment/enroll.py:457-466 | Once admitted, a rollback completes exactly when every account has its previous mapping or has it as the default behind the entry made here; it then restores every previous mapping and changes nothing else. |
| `EnrollmentRecovery.RollbackResumes` | packaging/greyward-enrollment/enroll.py:457-465 | A rollback that can complete can be stopped after any step and run again, with the same result. |
| `EnrollmentRecovery.RunRollsBack` | packaging/greyward-enrollment/enroll.py:457-465 | From any point of any run on a machine whose installer accounts had no entry of their own, a rollback completes and gives every account its previous mapping back. |
| `EnrollmentProgram.Installer.Prepare` | packaging/greyward-enrollment/enroll.py:250-286 | prepare as it runs, phase by phase, stopped after any number of steps: the machine is where the step list of the phase it found says. |
| `EnrollmentProgram.Installer.PrepareInputs` | packaging/greyward-enrollment/enroll.py:289-390 | The assembly, with the discarding of partial trees on resume, and the choice between writing and comparing the context file. |
| `EnrollmentProgram.Installer.FinishPreparation` | packaging/greyward-enrollment/enroll.py:397-442 | Check, register and allow, map, commit, check again. |
| `EnrollmentProgram.Installer.RegisterAll` | packaging/greyward-enrollment/enroll.py:408-417 | The loop over the accounts: broker registration, then the sudo rule of an administrator. |
| `EnrollmentProgram.Installer.MapAll` | packaging/greyward-enrollment/enroll.py:429-432 | The loop that maps every account. |
| `EnrollmentProgram.Installer.Check` | packaging/greyward-enrollment/enroll.py:231-247 | Read-only: the machine stays as it is, and the answer is whether every account is enrolled with the recorded inputs. |
| `EnrollmentProgram.Installer.Rollback` | packaging/greyward-enrollment/enroll.py:445-466 | The loop that removes each entry made here and checks the previous mapping, then the commit. |
| `ReviewLeases.AppliesAreReviewed` | security-center/security-context/greyward_security_context/application_workflows.py:391-401 | Over any calls with any bus answers and clock readings: an apply goes out only for the actor of the last preview of that operation, to the same broker, at a reading less than the reviewed lease (at most 120 s) after the preview began; both tables stay within 32 and `published` within `owners`. |
| `ReviewLeases.StartsArePrepared` | security-center/security-context/greyward_security_context/application_workflows.py:340-346 | Between two starts of one launch lies a preparation of it for the same actor at the same broker, less than 90 s before: no prepared launch is forwarded twice. |
| `ReviewLeases.RunKeeps` | security-center/security-context/greyward_security_context/application_workflows.py:189-203 | Every event of the history is lawful after what precedes it, and every table entry is the last lease or preparation of its reference at the present broker; results are recorded at most once per lease. |
| `ReviewLeases.PerformKeeps` | security-center/security-context/greyward_security_context/application_workflows.py:324-410 | Each operation keeps that invariant, whatever the bus answers. |
| `ReviewLeases.PreviewShows` | security-center/security-context/greyward_security_context/application_workflows.py:372-389 | What a preview shows is between 1 ms and 120 s, and exceeds what remains by more than 1 ms only if the clock passed the end of the lease between the two readings. |
| `ReviewSession.Transport.Send` | security-center/security-context/greyward_security_context/application_workflows.py:130-161 | One bus call against the owner of the broker's name before and after it. |
| `ReviewSession.Workflows.Send` | security-center/security-context/greyward_security_context/application_workflows.py:189-203 | A changed broker clears leases, launches and the connection; any other failure leaves them. |
| `ReviewSession.Workflows.SweepOwners` | security-center/security-context/greyward_security_context/application_workflows.py:376-376 | Keeps exactly the leases alive at their own reading of the clock. |
| `ReviewSession.Workflows.SweepLaunches` | security-center/security-context/greyward_security_context/application_workflows.py:326-326 | Keeps exactly the launches alive at their own reading of the clock. |
| `ReviewSession.Workflows.Preview` | security-center/security-context/greyward_security_context/application_workflows.py:372-389 | The preview on the object's fields is the specified step for its clock readings, which do not go back. |
| `ReviewSession.Workflows.Operation` | security-center/security-context/greyward_security_context/application_workflows.py:391-410 | Asking, applying and cancelling: ownership and lease checks, then one request, then at most one record. |
| `ReviewSession.Workflows.PrepareLaunch` | security-center/security-context/greyward_security_context/application_workflows.py:324-338 | Capacity, request, and a 90 s entry for the actor. |
| `ReviewSession.Workflows.StartLaunch` | security-center/security-context/greyward_security_context/application_workflows.py:340-363 | The entry is taken before the request is sent and never put back. |
| `ReviewSession.Workflows.Read` | security-center/security-context/greyward_security_context/application_workflows.py:295-297 | Calls that only read can still find the broker changed. |
| `EventLog.NothingLostExactly` | security-center/security-context/greyward_security_context/application_workflows.py:205-271 | Over every run of appends, rotations, restarts of broker and session, failing calls and readings with any store: at every moment every event the broker holds and will not offer again is stored, if and only if no reading of the run dropped an event the store was missing, and none was the first answer of a process that had restarted unnoticed and held, at or below the cursor, an event the store was missing. |
| `EventLog.RestartsLoseNothing` | security-center/security-context/greyward_security_context/application_workflows.py:150-156 | On a bus that gives no name twice, restarts lose nothing: the only losses are the drops of the store. |
| `EventLog.RestartCaseUnused` | security-center/security-context/greyward_security_context/application_workflows.py:219-220 | On such a bus the case for a restarted broker never arises: no answer names a number below the cursor. |
| `EventLog.RestartLosesEvent` | security-center/crates/greyward-application-security/src/access_events.rs:274-281 | Without that, a process that takes over the name of its predecessor: its first event lies below the cursor, the empty answer sets the cursor to its number, and it is passed whatever the store does. |
| `EventLog.DropLosesEvent` | security-center/security-context/greyward_security_context/application_workflows.py:244-270 | A reader that has caught up, one more event and a store that drops it: the event is held, passed and not stored. |
| `EventLog.PassedStaysPassed` | security-center/crates/greyward-application-security/src/access_events.rs:262-281 | An event the cursor has passed is offered to the session by no later answer of the process that numbered it. |
| `EventLog.ThreeReadingsCatchUp` | security-center/crates/greyward-application-security/src/access_events.rs:262-281 | Three readings with a store that keeps what it is given store everything the broker holds. |
| `EventLog.ReadAcceptable` | security-center/crates/greyward-application-security/src/access_events.rs:262-281 | What the broker answers to any cursor is always a batch the reader accepts, of events above the cursor. |
| `EventCounting.CountsExactly` | security-center/security-context/greyward_security_context/application_workflows.py:244-270 | Over every such run no event is counted twice if and only if no reading reports as recorded an event committed before; and all counters show the first-time records since they were made, at every moment, if and only if moreover none reports as not recorded one committed for the first time. |
| `EventCounting.SmoothCountsOnce` | security-center/security-context/greyward_security_context/application_workflows.py:219-220 | As long as no identifier is given twice, no batch breaks off behind an event it has committed and no session starts anew over stored events, no event is counted twice, through all restarts of the broker and all drops of the store. |
| `EventCounting.BreakRecounts` | security-center/security-context/greyward_security_context/application_workflows.py:268-271 | After a batch that broke off behind a committed event the next answer of the broker brings it again, and counts it if the store reports it as recorded. |
| `EventCounting.ReopenRecounts` | security-center/security-context/greyward_security_context/application_workflows.py:176-186 | A session that starts anew reads what the broker holds from its first event, and counts what it stored before. |
| `EventIngestion.MovedOverStored` | security-center/security-context/greyward_security_context/application_workflows.py:244-270 | After the cursor moved over a batch all its events are in the store exactly when the store swallowed the failure of none that it did not hold or keep otherwise. |
| `EventIngestion.DroppedIsLost` | security-center/security-context/greyward_security_context/telemetry.py:1164-1181 | An event of any batch that the store drops and does not hold or keep otherwise is lost: the cursor passes it, it is not stored, and no later reply of the same numbering may contain it. |
| `EventIngestion.RunCounts` | security-center/security-context/greyward_security_context/application_workflows.py:262-275 | After any reconciliations every live counter is the number of records reported for its resource since it was made, at most 1,000,000; there are at most 256 counters. |
| `EventIngestion.CountsFirstTimesExactly` | security-center/security-context/greyward_security_context/telemetry.py:561-584 | Over every run all counters show the first-time records since they were made, at every moment, if and only if no round reports as recorded an event committed before it, by an earlier round or earlier in the batch, or as not recorded one it commits for the first time. |
| `EventIngestion.NoReplaysExactly` | security-center/security-context/greyward_security_context/application_workflows.py:260-264 | Over every run no event is counted twice if and only if no round reports as recorded an event committed before it. |
| `EventIngestion.SteadyCountsOnce` | security-center/security-context/greyward_security_context/application_workflows.py:217-243 | While the numbering goes on, truncated or not, and no batch breaks off, no event is counted twice and no counter exceeds its first-time records. |
| `EventIngestion.BrokenBatchCountsAgain` | security-center/security-context/greyward_security_context/application_workflows.py:268-271 | A batch that breaks off anywhere leaves the cursor, and of every batch that begins with the same events each one committed before the break and reported as recorded now is counted as a replay. |
| `EventIngestion.ChangedBrokerCountsAgain` | security-center/security-context/greyward_security_context/application_workflows.py:193-202 | After a change of broker the counters start anew, and of every batch each event that was committed before and is reported as recorded is counted as a replay. |
| `EventReader.Reader.Check` | security-center/security-context/greyward_security_context/application_workflows.py:212-243 | The checking loops accept exactly batches of at most 100 events with rising numbers that end at the cursor. |
| `EventReader.Reader.Feed` | security-center/security-context/greyward_security_context/application_workflows.py:244-268 | The loop over the batch: store, count what is reported as recorded, stop at the first exception. |
| `EventReader.Reader.Sweep` | security-center/security-context/greyward_security_context/application_workflows.py:272-275 | Drops expired counters and all but the newest 256. |
| `EventReader.Reader.ReconcileAccessEvents` | security-center/security-context/greyward_security_context/application_workflows.py:205-275 | The whole reconciliation on the object's fields is the specified step. |
| `EventReader.Reader.RecentAccessBlocks` | security-center/security-context/greyward_security_context/application_workflows.py:277-280 | Lists the counters that are alive when looked at. |
| `Telemetry.Store.RecordEvent` | security-center/security-context/greyward_security_context/telemetry.py:1164-1181 | One recording: the event is inserted unless its identifier is there and then pruned, exactly if everything up to the commit went well; it is reported as recorded exactly if pruning ended well too, so every failure of the store is the answer that nothing was recorded. |
| `Telemetry.Store.RecordMany` | security-center/security-context/greyward_security_context/telemetry.py:561-584 | Checks before the first write, one transaction for all events, then pruning; the answer is their number, whether or not their rows are new. |
| `Telemetry.Store.Prune` | security-center/security-context/greyward_security_context/telemetry.py:620-680 | What has expired goes in one transaction, what exceeds the size in further ones; a failure keeps what was committed before it. |
| `Telemetry.DuplicateUnseen` | security-center/security-context/greyward_security_context/telemetry.py:523-546 | Of two stores that differ in one row, an earlier event under the identifier recorded now, both give the same answer and end with the same other rows, and the earlier event is not overwritten. |
| `Telemetry.RowStaysExactly` | security-center/security-context/greyward_security_context/telemetry.py:561-680 | A row is there after a recording exactly if it was there or is the one committed, had not expired when pruning looked, and was not evicted. |
| `DesktopLayout.AgreementExactly` | environment/session/desktop/output-layout.h:17-43 | Memory equals what a restart loads, after any calls with any mix of sync results and for any order of keys, if and only if the file the program started on held no second key for a usable name. |
| `DesktopLayout.StrayKeyBreaks` | environment/session/desktop/output-layout.h:86-100 | With such a key one rename makes them differ, for every order of keys. |
| `DesktopLayout.WrittenCanonical` | environment/session/desktop/output-layout.h:60-84 | A file only this program has written is always in that form. |
| `DesktopLayout.NextMirrors` | environment/session/desktop/output-layout.h:60-100 | Each call keeps memory and file in agreement, saved or not. |
| `DesktopLayout.PreferenceSurvives` | environment/session/desktop/output-layout.h:28-43 | A saved preference survives any calls that do not place or rename the icon, and is shown whenever its output is connected. |
| `DesktopLayout.FirstPlacementSticks` | environment/session/desktop/output-layout.h:37-41 | The first placement is such a preference once it could be saved. |
| `DesktopLayout.DesktopOutputLayout.constructor` | environment/session/desktop/output-layout.h:17-26 | The loading loop. |
| `DesktopLayout.DesktopOutputLayout.Assign` | environment/session/desktop/output-layout.h:60-84 | All names move together, in file and memory, or nothing changes. |
| `DesktopLayout.DesktopOutputLayout.Owner` | environment/session/desktop/output-layout.h:28-43 | Returns the output to show and saves a first placement. |
| `DesktopLayout.DesktopOutputLayout.Renamed` | environment/session/desktop/output-layout.h:86-100 | The preference moves to the new name in file and memory, or nothing changes. |
| `Base64Url.RoundTrip` | environment/session/desktop/output-layout.h:130-132 | Decoding an unpadded base64url key (section 5 of RFC 4648) gives the bytes back. |
| `Base64Url.EncodeInjective` | environment/session/desktop/output-layout.h:130-132 | Two names have one key exactly when they are equal. |
| `Base64Url.DecodeSkips` | environment/session/desktop/output-layout.h:21-21 | The other direction is lossy: two keys can decode to one name. |
| `OutputIdentity.IdentityInjective` | environment/session/desktop/output-layout.h:49-54 | Length-prefixed names can be read back in one way only, whatever bytes they hold. |
| `OutputIdentity.SameIdentity` | environment/session/desktop/output-layout.h:46-54 | Two configurations have one identity exactly when the same outputs are connected, in whatever order and however often listed. |
| `OutputIdentity.PositionFilesDistinct` | environment/session/desktop/output-layout.h:45-58 | Position files are equal exactly when the screen and the set of connected outputs are, unless the hash collides on the two identities. |
| `OutputIdentity.PositionFile` | environment/session/desktop/output-layout.h:45-58 | The loop that builds the identity and the path. |
| `NewcRoundTrip.RoundTrip` | environment/image/installer-contract.py:25-56 | For every list of regular files with distinct usable relative names, any other header numbers and any bytes after the trailer, within 16 MiB: reading what was written gives exactly that map. |
| `NewcRoundTrip.CollectedHolds` | environment/image/installer-contract.py:54-54 | That map holds each content under its name and nothing else. |
| `NewcRoundTrip.MemberReads` | environment/image/installer-contract.py:33-55 | A member written at an aligned offset is read back whole and leads to the next one. |
| `NewcArchive.ArchiveFiles` | environment/image/installer-contract.py:25-56 | The loop ends and returns what the recursive reader says, for every input, with Python's slices, negative indices and number parsing. |
| `NewcAccepted.AcceptedSlices` | environment/image/installer-contract.py:33-55 | An accepted archive holds exactly the members met, chained and under distinct names; without a negative size field each content is an in-bounds slice beyond its header and offsets rise. |
| `NewcAccepted.OffsetsRiseExactly` | environment/image/installer-contract.py:37-55 | The offset rises at every member exactly when every header met states a size above what it and its name take up, counted down from zero; the first header that does not, found on its fields alone, is where the offset first stays or goes back. |
| `NewcAccepted.HeaderRises` | environment/image/installer-contract.py:37-55 | At one member: the next offset is greater exactly when size > -align(110 + name size). |
| `NewcBackward.AcceptedBackward` | environment/image/installer-contract.py:37-55 | A concrete archive with a negative size field is accepted although the offset goes back. |
| `EncryptedRoot.AnswerExactly` | security-center/packaging/application-security/maintenance.py:98-134 | The answer is (path, uuid) exactly when there is one root record, at most 64 records above the first locked ones, and on every dependency path the first container under an encrypted layer lies within depth 16 and has that identity. |
| `EncryptedRoot.PathsExactly` | security-center/packaging/application-security/maintenance.py:108-130 | The pruned walk accepts a branch with one identity exactly when every path through it leads there. |
| `EncryptedRoot.EncryptedRootDevice` | security-center/packaging/application-security/maintenance.py:98-134 | Returns the answer, and nothing exactly when there is none. |
| `EncryptedRoot.Walker.Walk` | security-center/packaging/application-security/maintenance.py:108-130 | Goes through exactly when the branch is protected and the counter stays within 64; then the counter grew by the size of the pruned tree and the candidates by its identities. |
| `EncryptedRoot.Walker.WalkChildren` | security-center/packaging/application-security/maintenance.py:129-130 | The loop over the dependencies. |
| `CandidateLock.VersionFixesInputs` | packaging/greyward-office/automation/seal.py:39-47 | Along any chain of accepted locks versions never fall, and equal versions at any two points mean the same application record, pinned inputs included. |
| `CandidateLock.ParseInjective` | packaging/greyward-office/automation/seal.py:42-44 | Two stable versions of equal numbers are the same text. |
| `CandidateLock.RecipeKept` | packaging/greyward-office/automation/seal.py:24-28 | Along a chain the recipe keys never change and the package release never falls. |
| `CandidateLock.IdentityKept` | packaging/greyward-office/automation/seal.py:40-41 | Along a chain no reviewed field of an application changes. |
| `CandidateLock.ListedFontKept` | packaging/greyward-office/automation/seal.py:32-38 | The record of a font commit stays the same as long as every lock lists the commit. |
| `CandidateLock.UnlistedFontChanges` | packaging/greyward-office/automation/seal.py:34-36 | From every accepted lock, a commit it does not list can have been listed before and be listed again with other bytes. |
| `CandidateLock.AcceptedAgain` | packaging/greyward-office/automation/seal.py:23-66 | An accepted lock is accepted against itself exactly if its applications beyond those the trusted lock lists, which were compared with nothing, are; always if that one lists all four. |
| `BaselineSettings.Idempotent` | environment/image/baseline.py:67-85 | Projecting twice is projecting once, for every value, when the bars of the defaults have distinct usable identifiers. |
| `BaselineSettings.CapturedIsStageable` | environment/image/baseline.py:118-121 | Whatever a capture records passes the equality test of a staging run under the same policy. |
| `BaselineExact.StageableExactly` | environment/image/baseline.py:67-85 | Whatever a capture records can be staged under the same policy, if and only if every list of bars holds objects with usable identifiers, and each bar hidden by a later one of its identifier is absorbed by it, field by field. |
| `BaselineExact.OwnProjectionFails` | environment/image/baseline.py:77-79 | Being its own projection is not enough: two bars of one identifier with names of different types leave each other as they are, and some settings have a capture that cannot be staged. |
| `BaselineSettings.UnfixedBarsFail` | environment/image/baseline.py:157-158 | For every list of bars that is not its own projection a capture records settings that cannot be staged. |
| `BaselineSettings.DuplicateIdsFail` | environment/image/baseline.py:78-79 | Two bars under identifiers that Python's dictionaries take for one are such a list. |

## Left out

- HTTP, GPG, rpm, createrepo, dnf, git and SELinux commands are steps that succeed or end the
  attempt; digests are the contents they are taken of, or a function assumed not to collide on
  the values compared.
- Concurrent writers: operations on the ledger are serialised by the workflow, and the commit of
  several files is one atomic call. The administration calls of the session object, which use the
  bus outside its lock, are modelled as calls of the same sequence.
- CI log and artifact expiry, certificate checks, asset bytes and uploads, `fetch` and `upload`
  of the transfer job, and the ten-page limit of the release listing.
- The runtime of one workflow run fixes its commit; the run identifier therefore carries it.
- Elapsed times are exact integers where the code divides floating-point seconds.
- Parsing of patch text, JSON, XML, TOML and INI: the models start from hunks, records and keys.
  The path and inventory checks around the patch appliers are not part of the model.
- Text in the desktop layout is its UTF-8 bytes; keys whose bytes are not UTF-8, and any writes
  Qt keeps in its own cache after a failed sync, are not part of the model. The sort order of
  outputs is any total order.
- `desktopDropItems`, and file ownership, modes, labels and symbolic links everywhere but in the
  enrollment context file.
- The decompression before the archive reader; the archive is its decompressed bytes.
- In `CandidateLock` a malformed trusted lock is refused, where the code would raise or compare
  versions of other shapes; Python's equality of `true` and 1 between whole records is not
  modelled there (it is for bar identifiers in `BaselineSettings`).
- BaselineSettings.Idempotent: the condition on identifiers is sufficient, for bars inside bars
  as well.
- BaselineExact.StageableExactly: the exact condition is for policies whose bars hold no list of
  bars themselves.
- Enrollment: the desktop preferences written for each account, the USB helpers, the update
  socket and the services; account records other than names; a torn rewrite of the desktop
  manifest, which a resume discards with its tree; interference of other administrators with
  policy and mappings between two attempts. Registering with the broker is one step.
- Which rows an eviction picks to get the telemetry database back to size, the findings, relations
  and metadata written beside an event, and its other fields. "Stored" in the theorems on events
  means committed at some time; a row can be pruned later.
- How the broker makes events out of audit records; a restart between a request and its answer is
  a restart before the request.
- EnrollmentRecovery.FinishingExactly: live processes, missing factory preferences and other
  outside refusals (`enroll.py:403-406`, `419-428`) are attempts that stop there, not part of the
  condition.
- EnrollmentRecovery.RollbackExactly: the refusals outside the maintenance target, with live
  processes, and with rows in the broker's three tables (`enroll.py:446-456`) come before the first
  change and are attempts of no steps, not part of the condition.
- The content checks of reviews, grants and operations other than references, leases and terminal
  outcomes; the streams of a started launch.
- Generators of artwork, palettes, banners and themes, the GTK window, menus and notifications,
  probes against a live system, and verifiers that compare bytes with a receipt.
