# A verified model of sourceos-syncd

This Dafny project models the parts of `sourceos-syncd` that keep or judge state, and proves what they keep.

- **The sync daemon** (`Attestation`, `ContentSync`, `ReceiptStores`, `Daemon`, `DaemonSafety`, `DaemonLaws`, `DaemonExamples`). One poll reads the
  version file, plans through the locus, no-op and attestation gates, runs the steps until one fails, writes a receipt and
  perhaps the version file. The outside world (API answers, attestation files, the verifier, the PATH, one result per
  command, signals, a power cut after any number of commands or between the two writes) is an input of each poll, and the
  theorems hold over every sequence of polls and restarts.
- **The noise budget** (`NoiseBudget`). A mutable engine whose records agree with the histogram of what arrived.
- **The local store** (`LocalStore`, `StoreRuns`, `StoreRequests`). An append-only journal with ids derived from its length, a generation
  counter, a registry, and a one-pass summary that equals its declarative counts.
- **The report pipeline** (`Reports`, `ReportContract`, `ErrorPlaces`, `Diagnoses`, `FreshDiagnosis`,
  `DiagnosisTexts`, `RepairPlans`, `Policies`, `Gates`, `StoreReports`, `StoreReportChecks`, `RunReports`, `ReportExamples`). The contract check against an order-free definition of a valid report, the
  diagnosis, the repair plan, the scorecard and the trust gate, and end-to-end results from the first append to the trust
  decision, the score and the plan.
- **The event queue** (`Orchestration`). Classification into four directories, one file per sanitised key and state, an
  append-only audit log, the exact condition for delivery once per key, listing and replay.
- **Two tools** (`Schemas`, `ServiceGraph`). The recursive schema checker, and the service graph with its inverted
  capability index.

`Text`, `Sums` and `Json` hold what the others share. Code that updates state in place is a class or a method with loops,
proved against functions; the theorems are lemmas about those functions.

## Where the code differs from its documentation

The model follows the code.

- The queue manifest promises delivery exactly once by idempotency key; files are looked up by state and sanitised key, so
  one key can have a file in two directories, and another is never delivered because it is taken for a duplicate of a
  different key (`Orchestration.ExactlyOnceByKey` says exactly when a run keeps the promise,
  `Orchestration.OneKeyCanBeQueuedTwice` and `Orchestration.OneKeyCanBeLost` show runs that break it). Of all records with
  neither a key nor an id only the first is ever kept (`Orchestration.NamelessRecordsShareAFile`).
- "Applied" does not mean that the switch ran: a missing `nixos-rebuild` is skipped and the cycle still counts as applied
  (`ContentSync.AppliedMaySkipTheSwitch`); without either tool nothing is ever launched and the version is recorded all the
  same (`DaemonExamples.AppliedWithNothingLaunched`).
- A receipt is promised for every cycle, but an exception other than a time-out out of a command escapes without one
  (`ContentSync.ReceiptMissingExactly` says exactly when, `DaemonExamples.SwitchWithoutReceipt` shows a poll), and a power
  cut before the receipt leaves launched commands without one as well (`DaemonSafety.CyclesAreReceipted`).
- A denied sync is said not to be retried; each poll plans again and writes one more receipt
  (`DaemonSafety.DeniedLocusNeverActs`).
- The environment start-up requires attestation but sets neither an attestation directory nor a key, so such a daemon never
  acts (`DaemonSafety.EnvironmentDaemonNeverActs`).
- A version with white space at its ends, or a carriage return, is never recognised as the current one
  (`DaemonSafety.AppliedVersionSettles`, `DaemonExamples.UnstableVersionIsAppliedAgain`).
- An artifact id is said to bind organisation, content view and version; with a colon in any of them it binds another triple
  too (`Attestation.ArtifactIdInjective`, `Attestation.ColonsCollide`).
- The no-op repair plan says that all invariants pass; a report that fails only its contract gets it too, and so does one
  whose disk pressure is unknown (`RepairPlans.NoOpIsHealthyExactly`, `ReportExamples.BrokenContractGetsNoOp`,
  `ReportExamples.UnknownPressureGetsNoOp`).
- Event ids count the lines that are not blank, so blanking or removing a line makes a later append repeat an id
  (`StoreRuns.IdsRepeatExactly`).
- The diagnosis of a store report carries its local state, its top producers and a policy summary (tests/test_local_store.py
  expects the first two); a fresh diagnosis of that report drops all three, and only the local state is kept elsewhere
  (`StoreReportChecks.RefreshDropsStoreKeys`).
- Corrupt journal lines are counted twice under the default lanes (`StoreRuns.CorruptionIsCountedTwice`).
- The schema checker compares with Python's equality, which sees True as 1, and takes 1.0 for no integer
  (`Schemas.DisagreesExactly` says exactly where that matters).

## Model

| member | source | states |
|---|---|---|
| DaemonSafety.VersionFileIsExplained | src/sourceos_syncd/daemon.py:138-173 | In every run, crashes between the two writes included, the version file is what it was at the start or names the version of an "applied" receipt that is on disk |
| DaemonSafety.ReceiptsAreDurable | src/sourceos_syncd/receipt_store.py:52-59 | With fresh receipt names, no receipt is ever lost or overwritten over any run, and nothing else appears in the directory |
| DaemonSafety.RunsAreLinked | src/sourceos_syncd/daemon.py:138-183 | Each poll read what the last version write before it left and its receipt says so; a version is written exactly for an applied receipt whose poll did not crash |
| DaemonSafety.AppliedReceiptsChain | src/sourceos_syncd/daemon.py:166-174 | When no power cut lost a version the applied receipts form a chain: the first starts at the initial version, each next one at what the previous one reads back as, the last one is the current version |
| DaemonSafety.ChainIntactExactly | src/sourceos_syncd/daemon.py:166-174 | In every run the applied receipts chain up to the current version exactly when no power cut fell between an applied receipt and a version file that would have read differently |
| DaemonSafety.CrashForgetsTheVersion | src/sourceos_syncd/daemon.py:166-173 | After a crash the next process finds the old version; a crash between the two writes leaves the receipt of that poll on disk, a crash before the receipt leaves the disk as it was, whatever had been launched |
| DaemonSafety.CyclesAreReceipted | src/sourceos_syncd/daemon.py:166-170 | In every run a cycle that was begun has no receipt exactly when the power was cut before it was written or a step that was reached with the gate open ended in an exception other than the time-out; a power cut leaves a prefix of the commands launched, an exception counts as a failing poll after at least one command, and nothing is written |
| DaemonSafety.AppliedVersionSettles | src/sourceos_syncd/content_sync.py:147-160 | Once a version is applied, every later run that is only offered it (API errors and restarts allowed) launches nothing and writes nothing, exactly when the version survives its file; otherwise the next poll is no no-op |
| DaemonSafety.EveryActIsAttested | src/sourceos_syncd/content_sync.py:162-191 | With attestation required, in every run each launched command, version write and applied receipt belongs to a poll that accepted an attestation naming exactly that version, and its receipt is Proved |
| DaemonSafety.OneAttestationOneVersion | src/sourceos_syncd/release_attestation.py:47-54 | Over any run, two acting polls that loaded the same attestation acted on offers with the same artifact id: on the same organisation, content view and version when one offer has no colon at all or neither has one in its names, and in any case exactly when the names are equally long |
| DaemonSafety.UnconfiguredGateStaysShut | src/sourceos_syncd/daemon.py:121-136 | Requiring attestation without a directory, or without a key for the default verifier, no run launches anything or moves the version file |
| DaemonSafety.EnvironmentDaemonNeverActs | src/sourceos_syncd/daemon.py:209-226 | Whatever the environment variables say, a daemon started from them launches nothing and never moves the version file, in any run |
| DaemonLaws.EnvironmentIsRead | src/sourceos_syncd/daemon.py:209-226 | Which variable makes which part of the configuration, with its default; an empty key is none, attestation is required without a place to find one |
| DaemonLaws.EnvironmentReceipts | src/sourceos_syncd/daemon.py:209-226 | In every run of such a daemon each receipt is a refusal without a step: denied when the locus variable names another than the two allowed loci, otherwise blocked |
| DaemonSafety.DeniedLocusNeverActs | src/sourceos_syncd/content_sync.py:132-145 | Outside the allowed loci no run launches anything or moves the version file, and every poll that is offered a version writes one more "denied" receipt unless the power is cut first |
| DaemonSafety.BackoffIsExponential | src/sourceos_syncd/daemon.py:100-109 | After k failing polls in a row the backoff is min(1800, 30 * 2^(k-1)); after any other poll or a restart it is 0 |
| DaemonSafety.SleepsAreBounded | src/sourceos_syncd/daemon.py:111-116 | Every sleep of every run is the poll interval or lies in [30, 1800] |
| DaemonLaws.SwitchIsVerified | src/sourceos_syncd/daemon.py:138-147 | With a signing key in the configuration, in every run a launched nixos-rebuild is the last command of its poll and the switch to the configured flake, preceded by both downloads for the offered cache and the check with that very key, all three of which exited 0 |
| DaemonLaws.CommandsExactly | src/sourceos_syncd/content_sync.py:193-212 | In every run a poll launches nothing when the gate is shut; when it is open, each of the up to five commands exactly under its own condition on the key, the PATH and the earlier exits, as far as the power lasts |
| DaemonLaws.ReceiptsTell | src/sourceos_syncd/content_sync.py:321-354 | In every run each receipt names the offer, the configuration and the version that was read; its gate, outcome, level and decision each by an if-and-only-if; and its steps are those of the script with the status each one ended in |
| DaemonLaws.PollsEnd | src/sourceos_syncd/daemon.py:138-183 | In every run a poll raises exactly when the API failed, an exception escaped or a step failed, and the power lasted; it writes exactly the offered version, exactly when it was applied; and it crashes exactly at the two crash points |
| DaemonLaws.SleepsExactly | src/sourceos_syncd/daemon.py:100-116 | The sleeps of every run, one by one: the poll interval after a poll without an exception, min(1800, 30 * 2^(k-1)) after the k-th failure in a row, none after a signal during the poll or a power cut |
| DaemonLaws.RunningExactly | src/sourceos_syncd/daemon.py:89-119 | In every run the process is alive exactly when it was just started or its last poll ended with neither a signal nor a power cut, and no poll was made by a process that was not |
| DaemonLaws.EveryActIsSigned | src/sourceos_syncd/release_attestation.py:75-105 | With minisign as the verifier, in every run each poll that launched or recorded anything had minisign accept, under the configured key, the line naming exactly its organisation, content view and version, from the file named after the content view and version |
| Daemon.SyncDaemon.PollOnce | src/sourceos_syncd/daemon.py:138-183 | One poll on the real store object does what the transition function says: what is read, written, raised and left behind by a crash (`DaemonLaws` says what that is in terms of the configuration, the offer and the machine) |
| Daemon.SyncDaemon.Turn | src/sourceos_syncd/daemon.py:100-116 | One turn of the loop moves the daemon along its state machine, with at most one sleep |
| Daemon.SyncDaemon.RunLoop | src/sourceos_syncd/daemon.py:89-119 | The loop over any sequence of polls reaches the state of the run function, stopping early on a signal or crash |
| DaemonExamples.AppliedWithNothingLaunched | src/sourceos_syncd/content_sync.py:277-306 | For any version: with neither tool on the PATH no command at all is launched, and the version is recorded as applied |
| DaemonExamples.NeverLaunchedAndSettled | src/sourceos_syncd/daemon.py:172-174 | From then on every run that is offered that version is quiet: the host counts as up to date without a single command ever having been launched |
| DaemonExamples.UnstableVersionIsAppliedAgain | src/sourceos_syncd/content_sync.py:147-160 | The version "1 " is applied, and the very next poll that is offered it meets an open gate again |
| DaemonExamples.SwitchWithoutReceipt | src/sourceos_syncd/content_sync.py:284-300 | The copy succeeds, the switch is launched and raises: both commands were launched, and there is neither a receipt nor a version write |
| ContentSync.GateExactly | src/sourceos_syncd/content_sync.py:125-228 | Which of the four gates a plan meets, each by an if-and-only-if: locus first, then version, then an authorising attestation; only an attested plan is Proved |
| ContentSync.RunSteps | src/sourceos_syncd/content_sync.py:260-300 | The loop with its abort flag launches the commands and, unless an exception escapes, yields the results of the closed form that is fixed by one cut position |
| ContentSync.SingleCut | src/sourceos_syncd/content_sync.py:260-306 | One result per step in order, with a single cut: before it only ok or skipped, at it failed or timeout, after it only not-run |
| ContentSync.StatusesExactly | src/sourceos_syncd/content_sync.py:260-300 | The status of each step by an if-and-only-if each: not-run unless everything launched before it exited 0, then skipped without its tool, and otherwise ok, failed or timeout as it ended |
| ContentSync.LaunchedExactly | src/sourceos_syncd/content_sync.py:260-300 | A command is launched exactly at the steps that are reached and whose tool is on the PATH |
| ContentSync.OnlyLastStepSwitches | src/sourceos_syncd/content_sync.py:193-212 | Only an allowed plan has steps, and its only nixos-rebuild step is the last one |
| ContentSync.EarlierStepsSucceeded | src/sourceos_syncd/content_sync.py:262-300 | When a command was launched, every earlier launched step of the same cycle was launched first and exited 0 |
| ContentSync.SwitchNeedsSignature | src/sourceos_syncd/content_sync.py:195-212 | With a signing key, a switch is launched only after both downloads and the signature check of that cycle were launched and exited 0 |
| ContentSync.CleanMeansUncut | src/sourceos_syncd/content_sync.py:303-306 | The test on the statuses that makes a cycle "applied" holds exactly when no step stopped the sequence |
| ContentSync.ReceiptMissingExactly | src/sourceos_syncd/content_sync.py:230-300 | The receipt promised for every cycle is missing exactly when the gate was open, it was no dry run, and some step was launched after every earlier launched step exited 0 and ended in an exception other than the time-out |
| ContentSync.OutcomeExactly | src/sourceos_syncd/content_sync.py:262-306 | A cycle is applied exactly when every launched step exited 0, failed exactly when the first one that did not exit 0 failed or timed out |
| ContentSync.AppliedMaySkipTheSwitch | src/sourceos_syncd/content_sync.py:277-306 | An applied cycle launched the switch exactly when nixos-rebuild was on the PATH: without it the cycle is applied all the same |
| ContentSync.DryRunIsPure | src/sourceos_syncd/content_sync.py:273-275 | A dry run launches no command, whatever the plan |
| ContentSync.Execute | src/sourceos_syncd/content_sync.py:230-319 | The method gives the launched commands and the receipt of the closed form, or no receipt when an exception escapes |
| Attestation.GateOpensExactlyWhenAuthorised | src/sourceos_syncd/release_attestation.py:108-167 | The decision is positive exactly for a complete record that names this version and that the verifier accepts, and exactly then Proved |
| Attestation.ReasonsExactly | src/sourceos_syncd/release_attestation.py:108-167 | Each reason of a refusal by its own condition, with exactly the unusable fields among the five named, and the claimed signer in every decision |
| Attestation.ArtifactIdInjective | src/sourceos_syncd/release_attestation.py:47-54 | An artifact id names one organisation, content view and version and no others exactly when none of the three has a colon |
| Attestation.NamesDecide | src/sourceos_syncd/release_attestation.py:47-54 | Between offers whose organisations and content views have no colon the ids are equal exactly when the offers are, whatever the versions contain |
| Attestation.ColonsCollide | src/sourceos_syncd/release_attestation.py:47-54 | A colon lets different content views share one id: in a name, and even in the version alone of an offer whose names have none |
| ReceiptStores.VersionRoundTrip | src/sourceos_syncd/receipt_store.py:40-48 | A written version is read back unchanged exactly when it is non-empty, trimmed and free of carriage returns |
| ReceiptStores.ReceiptStore.WriteCurrentVersion | src/sourceos_syncd/receipt_store.py:46-48 | Only the version file changes, and the new version reads back exactly when it is stable |
| ReceiptStores.ReceiptStore.WriteReceipt | src/sourceos_syncd/receipt_store.py:52-59 | Exactly the file of the receipt is added or replaced; the version file stays |
| ReceiptStores.SharedFileExactly | src/sourceos_syncd/receipt_store.py:52-59 | Two receipts share a file exactly when their times of issue look alike in a file name and their ids agree in the first sixteen characters after the last colon |
| ReceiptStores.StemExactly | src/sourceos_syncd/receipt_store.py:52-59 | The time in a receipt's file name keeps every character but the colon and the T, which become a dash and an underscore |
| NoiseBudget.NoiseBudgetEngine.Ingest | src/sourceos_syncd/noise_budget.py:102-150 | The mutable engine stays equal to the state function of everything received since the last flush; a surfacing event returns the new stored object, a suppressed one changes the stored object in place |
| NoiseBudget.RecordsAreCounts | src/sourceos_syncd/noise_budget.py:102-150 | For any mix of arrivals the record of a key is a function of how often the key arrived: count min(n, max(1, M)), the rest suppressed; a critical key always has count 1 |
| NoiseBudget.SurfacesExactly | src/sourceos_syncd/noise_budget.py:108-139 | An arrival surfaces exactly when its key is critical or has budget left |
| NoiseBudget.SurfacesByEvent | src/sourceos_syncd/noise_budget.py:102-139 | In terms of the events: an arrival surfaces exactly when its kind is critical, its source exempt, or fewer than max(1, M) events of the same kind, source and subject have arrived since the last flush |
| NoiseBudget.RecordsRemember | src/sourceos_syncd/noise_budget.py:108-150 | What a record keeps: of a key that is not critical the time of its first arrival and the event and time of the last one that surfaced, of a critical key those of its last arrival |
| NoiseBudget.SurfacedExactly | src/sourceos_syncd/noise_budget.py:102-150 | A non-critical key seen n times surfaced exactly min(n, max(1, M)) times, a critical one every time |
| NoiseBudget.TotalsAreSums | src/sourceos_syncd/noise_budget.py:104-127 | total_suppressed is the sum over the records, and total_received is critical_passed plus counts and suppressions of the non-critical records |
| NoiseBudget.UtilizationBelowOne | src/sourceos_syncd/noise_budget.py:152-161 | The reported utilisation is always at least 0 and below 1 |
| NoiseBudget.NoiseBudgetEngine.Report | src/sourceos_syncd/noise_budget.py:152-161 | The report gives the number received since the last flush, the distinct keys, the suppressed and the critical ones |
| LocalStore.LocalStateStore.AppendEvent | src/sourceos_syncd/local_store.py:196-219 | A refused append changes nothing; an accepted one adds one line and one generation, or the line alone when cut short between the two writes |
| LocalStore.RefusalExactly | src/sourceos_syncd/local_store.py:196-203 | Why an append is refused: not initialised, unknown lane, unknown type, each by its own condition and in this order, and otherwise not |
| LocalStore.InitKeeps | src/sourceos_syncd/local_store.py:139-162 | Initialising keeps the manifest, journal and records that are there, supplies the others, and doing it again changes nothing |
| LocalStore.LocalStateStore.IterEvents | src/sourceos_syncd/local_store.py:221-244 | The reader turns each unparsable line into a corrupt event of lane "repair" and skips blank lines |
| LocalStore.LocalStateStore.Summarize | src/sourceos_syncd/local_store.py:285-403 | The one pass over the events, and the loop over the lanes after it, compute every counter in closed form |
| LocalStore.CountEvents | src/sourceos_syncd/local_store.py:312-347 | The loop keeps every lane counter, object set, pipeline and producer counter equal to its declarative count over the events read |
| LocalStore.LaneOrderFacts | src/sourceos_syncd/local_store.py:290-315 | Every lane is reported once: exactly those of the manifest and those an event names |
| LocalStore.TopProducersExactly | src/sourceos_syncd/local_store.py:310-402 | The top producers are exactly those who wrote an event, each once, by falling number of events and among equals by first appearance |
| LocalStore.UnnamedEventsCount | src/sourceos_syncd/local_store.py:312-318 | For any journal: events that name no lane count in lane repair, events that name no producer for "unknown", all others where they say |
| LocalStore.PutThenGet | src/sourceos_syncd/local_store.py:246-272 | After a put, a get of any id with the same sanitised form and kind finds the stored record, which keeps the given fields and adds what is missing of record_id, schema and updated_at; every other get is as before |
| LocalStore.PutIsCounted | src/sourceos_syncd/local_store.py:246-283 | A put adds one to the registry count of its kind exactly when no record had its sanitised id, and leaves the other counts |
| LocalStore.SchemasTellKinds | src/sourceos_syncd/local_store.py:35-43 | A record stored without a schema of its own tells its kind by the one it is given |
| LocalStore.SanitisedIdReadsTheSame | src/sourceos_syncd/local_store.py:51-57 | Reading by the sanitised form of an id is reading by the id |
| StoreRuns.IdsCountAppends | src/sourceos_syncd/local_store.py:405-407 | In every run of appends, cut appends and damage, the i-th append gets the id evt- with i padded to eight digits, and the generation plus the cuts is 1 plus the appends |
| StoreRuns.IdsAreDistinct | src/sourceos_syncd/local_store.py:405-407 | No id is ever handed out twice in a run, past eight digits too |
| StoreRuns.JournalIdsAreDistinct | src/sourceos_syncd/local_store.py:221-244 | Undamaged lines of the journal carry pairwise distinct ids |
| StoreRuns.JournalGrows | src/sourceos_syncd/local_store.py:215-216 | Without damage a run only ever extends the journal |
| StoreRequests.JournalHoldsRequests | src/sourceos_syncd/local_store.py:196-219 | In every run, cuts and damage included, the i-th line holds the type, lane, producer and object of the i-th accepted request, the object being "object-" and its own event id exactly when none or an empty one was given, or it was damaged since |
| StoreRequests.SummaryTellsRequests | src/sourceos_syncd/local_store.py:285-403 | The summary after any run, read off the requests: tombstones, maintenance, live objects, corruption, limits and status of each of the ten lanes, every pipeline stage, and every producer's events |
| StoreRequests.AddThenDelete | src/sourceos_syncd/local_store.py:325-343 | An object that is added and then deleted by name is not live any more: lane normal has total 0 |
| StoreRuns.NextIdRepeatsExactly | src/sourceos_syncd/local_store.py:405-407 | When ids were handed out in order, whatever was done to the journal since, the next append repeats one exactly when the reader finds fewer events than ids were handed out |
| StoreRuns.IdsRepeatExactly | src/sourceos_syncd/local_store.py:221-244 | In every run in which lines may also be blanked and removed, an id is handed out twice exactly when an append is accepted after a line was lost |
| StoreRuns.LostLineRepeatsAnId | src/sourceos_syncd/local_store.py:226-227 | The shortest such runs: append, blank or remove the line, append again, and both appends get the first id |
| StoreRuns.RunsLeaveNothingUnapplied | src/sourceos_syncd/local_store.py:204-214 | After any run nothing is unapplied, and corrupt events are read exactly when a line was damaged |
| StoreRuns.TombstonesAddUp | src/sourceos_syncd/local_store.py:337-345 | The tombstones of the reported lanes add up to the deletes that name an object |
| StoreRuns.CorruptionIsCountedTwice | src/sourceos_syncd/local_store.py:320-363 | The corrupted counts of the lanes add up to the corrupt events, counted once more if lane "repair" is reported, so to twice their number under the default lanes |
| StoreRuns.ProducersAddUp | src/sourceos_syncd/local_store.py:317-318 | The producer counts add up to the number of events |
| StoreRuns.NormalCountsLiveObjects | src/sourceos_syncd/local_store.py:325-359 | Lane "normal" reports the number of objects that an intact event names and no delete ever named |
| Text.SafeIdIdempotent | src/sourceos_syncd/local_store.py:51-57 | A sanitised id is a portable name and sanitising it again changes nothing |
| Text.SafeIdExactly | src/sourceos_syncd/local_store.py:53-59 | Sanitising keeps the middle of an id between stripped white space and dots: letters, digits, dashes, underscores and dots in their places, anything else as an underscore |
| Text.PaddedExactly | src/sourceos_syncd/local_store.py:405-407 | A padded number is worth the number, has only digits, and has eight of them, or more without a leading zero when eight are too few |
| Text.SafeIdRefuses | src/sourceos_syncd/orchestration_events.py:30-35 | The refused ids are exactly those made of dots between white space |
| ReportContract.ContractExactly | src/sourceos_syncd/reports.py:273-438 | validate_report is silent exactly about the valid reports: an order-free definition with unique names, complete sections, matching flag forms and well-formed invariants |
| ReportContract.ListExactly | src/sourceos_syncd/reports.py:329-389 | The pass with its set of names seen is silent exactly when every item is good on its own and no two items share a name |
| ReportContract.InstantsExactly | src/sourceos_syncd/reports.py:63-75 | Times are read as ISO texts with a final Z standing for the offset +00:00; anything else is no time |
| ReportContract.HexDigitsExactly | src/sourceos_syncd/reports.py:349-354 | A hexadecimal digit, in either case, is worth its place among the sixteen, and no other character is one |
| Reports.CheckList | src/sourceos_syncd/reports.py:325-389 | The loop over stores or lanes with its set of names seen gives the errors of the specification |
| Reports.SumLags | src/sourceos_syncd/reports.py:513-526 | The loop gives the total and the allowed lag, and compares them as the invariant does |
| Reports.CollectAffected | src/sourceos_syncd/reports.py:570-584 | The loop collects exactly the names of the affected lanes |
| Diagnoses.CausesExactly | src/sourceos_syncd/reports.py:490-575 | An invariant is a cause exactly when its own condition fails |
| Diagnoses.CollectionExactly | src/sourceos_syncd/reports.py:586-590 | A partial and a failed collection are causes each of its own, and no other collection status is |
| Diagnoses.LoneLaneExactly | src/sourceos_syncd/reports.py:578-584 | A lane that calls itself degraded, repairing or unsafe is affected however little it lags; of all others exactly those that lag behind their allowance |
| Diagnoses.HeartbeatExactly | src/sourceos_syncd/reports.py:484-511 | The heartbeat invariant holds exactly when the last heartbeat parses and lies no further back than any lane allows, or than 30000 ms when no lane says |
| Diagnoses.ShadowExactly | src/sourceos_syncd/reports.py:528-539 | The shadow invariant holds exactly when no active store claims a shadow without a verified or unsupported checksum |
| Diagnoses.EvidenceExactly | src/sourceos_syncd/reports.py:470-562 | Every verdict of every report can be checked from the evidence it is given with, and exactly the passing ones are of severity info |
| Diagnoses.ActionsExactly | src/sourceos_syncd/reports.py:592-623 | Acting on fresh state is blocked exactly when heartbeat or lag is out of bounds, purging exactly when the disk is tight, and exactly the broken invariants have their remedy listed |
| Diagnoses.BrokenLagNamesALane | src/sourceos_syncd/reports.py:575-597 | When the lag over all lanes breaks its invariant, some lane exceeds its own allowance and is listed as affected, a replay is offered and acting on fresh state is blocked |
| Diagnoses.SlackHidesALag | src/sourceos_syncd/reports.py:513-526 | Not the other way round: a lane that lags by any amount is affected while the slack of another makes the invariant hold, and no replay is offered |
| Diagnoses.ControlsExactly | src/sourceos_syncd/reports.py:627-636 | Each control is offered exactly for its own condition and at most once |
| Gates.SixStatus | src/sourceos_syncd/reports.py:600-607 | The status and severity of a diagnosis, as a decision over which of the six invariants hold |
| FreshDiagnosis.SettledIsFixed | src/sourceos_syncd/reports.py:716-721 | Refreshing a dated report with the three keys and a well-formed invariants list makes its invariants, diagnosis and controls agree with it, and refreshing it again at any later time changes nothing |
| FreshDiagnosis.TwoRefreshesSettle | src/sourceos_syncd/reports.py:716-721 | Two refreshes reach a fixed point on every dated report |
| FreshDiagnosis.OneRefreshSettlesExactly | src/sourceos_syncd/reports.py:716-721 | On a dated report one refresh is enough exactly when the three rewritten keys were there and either the shape is broken anyway or the invariants list was well formed |
| FreshDiagnosis.RefreshKeepsReadable | src/sourceos_syncd/reports.py:716-721 | A refresh changes nothing that the report functions need to read a report without an exception |
| DiagnosisTexts.CausesMatchInvariants | src/sourceos_syncd/reports.py:575-590 | The causes that are written down are the ids of the invariants written down as not passing, and the one the collection may add |
| DiagnosisTexts.ActionsMatchInvariants | src/sourceos_syncd/reports.py:575-597 | The safe actions that are written down are the remediations of those invariants, a purge preview on a tight disk, and normal operation only when there is neither |
| DiagnosisTexts.StatusMatchesInvariants | src/sourceos_syncd/reports.py:599-607 | The written status is unsafe exactly when a written critical invariant failed, degraded when any other did not pass, healthy otherwise |
| DiagnosisTexts.WrittenCausesExactly | src/sourceos_syncd/reports.py:565-590 | Every cause by its written text and its own condition on the report |
| DiagnosisTexts.WrittenActionsExactly | src/sourceos_syncd/reports.py:575-597 | Every safe action by its written text and its own condition |
| DiagnosisTexts.WrittenBlocksExactly | src/sourceos_syncd/reports.py:592-597 | The two blocked actions by their written texts and their own conditions |
| DiagnosisTexts.AffectedListed | src/sourceos_syncd/reports.py:609-613 | The affected lanes are written out each once, in order |
| DiagnosisTexts.WrittenVerdictExactly | src/sourceos_syncd/reports.py:599-613 | The written severity and summary as functions of which invariants hold |
| DiagnosisTexts.ControlsTell | src/sourceos_syncd/reports.py:628-637 | The written controls: each id offered exactly for its own trouble, and only the purge preview waits for approval |
| RepairPlans.BuildSteps | src/sourceos_syncd/reports.py:647-665 | The guarded appends give the numbered steps of the plan, which `RepairPlans.StepsExactly` pins to their troubles |
| RepairPlans.StepsExactly | src/sourceos_syncd/reports.py:654-665 | For every report: each step is planned exactly for its own trouble (stale heartbeat, lag, unverified shadow, dirty open, watched disk), at most once and in this order, and the no-op only alone |
| RepairPlans.PlanAnswersExactly | src/sourceos_syncd/reports.py:654-665 | The same about the plan as it is written, by the id and kind of its steps |
| RepairPlans.PlanNamesItsReport | src/sourceos_syncd/reports.py:667-677 | A plan names the report it is for and repeats the severity and summary of the written diagnosis |
| RepairPlans.CheckSteps | src/sourceos_syncd/reports.py:463-476 | The loop with its running order gives the errors of the specification |
| RepairPlans.PlanExactly | src/sourceos_syncd/reports.py:441-479 | validate_repair_plan is silent exactly about the good plans: complete, numbered 1..n, with a flag on every step, and nothing destructive in a preview |
| RepairPlans.GeneratedPlansAreValid | src/sourceos_syncd/reports.py:647-700 | For every report the generated plan passes the plan check exactly when the text of the clock parses |
| RepairPlans.PlanShape | src/sourceos_syncd/reports.py:647-665 | A plan has one to five steps numbered from 1, none destructive, and is a lone no_op exactly when four named invariants hold and the disk is not even watched |
| RepairPlans.NoOpIsHealthyExactly | src/sourceos_syncd/reports.py:654-665 | The lone no_op says that all invariants pass; of the reports that get it this is so, and they are healthy, exactly when the contract holds and the disk pressure is not unknown; the others are unsafe |
| ReportExamples.BrokenContractGetsNoOp | src/sourceos_syncd/reports.py:654-665 | The report of a store with an unknown migration state fails the contract, is unsafe and gets the lone no_op |
| ReportExamples.UnknownPressureGetsNoOp | src/sourceos_syncd/reports.py:541-549 | A report that passes the whole contract with disk pressure "unknown" is unsafe and gets the lone no_op |
| Gates.BlockedIsUnsafe | src/sourceos_syncd/scorecard.py:76-116 | For every report the scorecard is blocked exactly when the diagnosis is unsafe, which is exactly when the contract is broken or the disk pressure is critical or unknown |
| Gates.WorseReportNeverRanksHigher | src/sourceos_syncd/scorecard.py:58-116 | Between any two reports: one that is nowhere better off (invariants, contract, lag, disk, signature) has no more points, every failing gate of the other, and no higher status |
| Gates.MakeScorecard | src/sourceos_syncd/scorecard.py:58-116 | The counts, deductions and gates give the scorecard of the report |
| Gates.Score | src/sourceos_syncd/scorecard.py:99-107 | The deductions stay within 0 and 100, and all hundred points remain exactly when there is nothing to deduct |
| Gates.ScoreExactly | src/sourceos_syncd/scorecard.py:73-107 | The score of every report in closed form over its invariants, lag, pressure and signature; the caps at 40 and at 15 never bind |
| Gates.TrustImpliesScore | src/sourceos_syncd/trust.py:85-114 | An allowed request comes with a ready or watch scorecard of at least 75, one allowed in degraded mode with an unblocked one of at least 45 |
| ReportExamples.AllowedFloorIsReached | src/sourceos_syncd/trust.py:85-114 | A store report with one unapplied event on a tight disk is allowed at exactly 75 points, so the floor cannot be raised |
| ReportExamples.DegradedFloorIsReached | src/sourceos_syncd/trust.py:85-114 | A valid report with a stale heartbeat, a hundred unapplied events, a damaged line, a dirty open and a tight disk is allowed in degraded mode at exactly 45 points |
| Gates.TrustPassesExactly | src/sourceos_syncd/trust.py:75-114 | Which requests pass, in full: valid contract, lane there, disk in order, attestation and degradation covered by the request, no restricted lane with denials |
| Gates.ReadingsExactly | src/sourceos_syncd/trust.py:75-111 | What the gates read of a report besides its invariants: the signature, the lane names and the count of denials |
| Gates.DecideTrust | src/sourceos_syncd/trust.py:85-114 | The two stages that overwrite status and reason: allowed and degraded-allowed each by an order-free condition, and each reason for a block by its own if-and-only-if |
| Policies.DecisionsExactly | src/sourceos_syncd/policy.py:209-229 | The local decision table without its order: who is denied, redacted and deferred |
| Policies.ReasonsExactly | src/sourceos_syncd/policy.py:209-230 | Each of the seven reasons by its own condition, without the order of the rules |
| Policies.EvaluateReportPolicy | src/sourceos_syncd/policy.py:243-253 | The nested loops give the four representative decisions of every lane in order |
| Policies.DecisionsOfRequests | src/sourceos_syncd/policy.py:243-253 | The statuses counted for a report are those of the requests whose decisions it samples, four per lane in the same order |
| Policies.CountDecisions | src/sourceos_syncd/policy.py:256-264 | The counter loop counts each status |
| Policies.ReportCounts | src/sourceos_syncd/policy.py:209-264 | For any lanes: two denials and a redaction per secure lane, a denial per repair lane, a deferral per ephemeral lane, four decisions per lane in all |
| StoreReports.SnapshotFromStore | src/sourceos_syncd/store_reports.py:14-40 | The report read off a store object is the projection of its summary, section by section, local state included, then diagnosed with the local state, the top producers and the policy summary added to the diagnosis |
| StoreReportChecks.StoreReportIsValid | src/sourceos_syncd/store_reports.py:14-40 | The report from any store passes the whole contract exactly when the manifest has a known migration state and there is a lane; damage and strange events never matter |
| StoreReportChecks.UninitialisedReportsAreValid | src/sourceos_syncd/store_reports.py:24-25 | The report from a store that was never initialised passes the contract |
| StoreReportChecks.ReportsOfRunsAreValid | src/sourceos_syncd/store_reports.py:14-40 | The report passes the contract after every run of appends, cut appends and damage |
| StoreReportChecks.StoreReportIsReadable | src/sourceos_syncd/store_reports.py:34-39 | None of the functions that read a store report meets anything it cannot handle |
| StoreReportChecks.RefreshDropsStoreKeys | src/sourceos_syncd/store_reports.py:34-39 | The invariants and controls of a store report are those of a fresh look at any later time although the diagnosis is written first; its diagnosis is the fresh one and exactly three keys more, so a refresh drops those three and changes nothing else, and every later refresh changes nothing |
| StoreReportChecks.ReportCountsEvents | src/sourceos_syncd/store_reports.py:19-20 | Each lane of the report carries the tombstones, corruption and maintenance events of exactly that lane of the journal, lane normal the live objects; only a corrupted lane repair is degraded |
| StoreReportChecks.ReportCountsPipeline | src/sourceos_syncd/store_reports.py:21 | The pipeline of the report counts the adds, updates and deletes of the journal, and those applied |
| StoreReportChecks.LagExactly | src/sourceos_syncd/reports.py:513-526 | The replay-lag invariant of a store report holds exactly when L*u is at most 100 times the lanes other than priority |
| StoreReportChecks.LagThresholds | src/sourceos_syncd/local_store.py:424-432 | With the ten default lanes among them, 90 unapplied events always pass and 100 never do |
| StoreReportChecks.RestrictedLanesAreNeverTrusted | src/sourceos_syncd/trust.py:110-114 | Under local policy no request for lane secure or repair of a store report is ever granted |
| StoreReportChecks.ReportedCountsExactly | src/sourceos_syncd/store_reports.py:29-32 | The decision counts of a store report in closed form, adding up to four per lane |
| StoreReportChecks.RunsAreTrustedExactly | src/sourceos_syncd/trust.py:75-114 | From the first append to the trust decision: after any run a request for an unrestricted default lane passes exactly when it does not insist on attestation, the disk is not nearly full, and the journal was never damaged or degraded mode is accepted |
| StoreReportChecks.RunsScoreExactly | src/sourceos_syncd/scorecard.py:58-116 | The score and each status of any run, to the point, from the free disk and whether a line was damaged |
| StoreReportChecks.RunsPlanExactly | src/sourceos_syncd/reports.py:647-665 | The repair plan of any run: verify the shadow exactly after damage, preview a purge exactly at a fifth of free disk or less |
| RunReports.ReportTellsRequests | src/sourceos_syncd/store_reports.py:19-21 | The report of any run as it is written, lane by lane and stage by stage, read off the accepted requests and the damage |
| RunReports.ReportTellsStore | src/sourceos_syncd/local_store.py:379-398 | The store object of any run's report: active, a generation per append that was not cut short, verified exactly when no line was damaged, and no collection error |
| RunReports.ReportTellsHost | src/sourceos_syncd/store_reports.py:18-27 | The report of any store shows the readings of its host: process, disk with the pressure its free part stands for, and the time of the report as that of the last heartbeat |
| RunReports.UninitialisedReportTells | src/sourceos_syncd/local_store.py:285-403 | The report of a store without a manifest, whatever its journal and registry hold: a retired store without flags, every lane dormant and empty, and a collection error that says why |
| RunReports.ReportTellsDecisions | src/sourceos_syncd/store_reports.py:29-32 | The decision counts as a store report writes them, in closed form over its lanes |
| RunReports.ReportTellsState | src/sourceos_syncd/local_store.py:365-387 | The local state a store report carries: which files there are and, if the store is initialised, the number of records of each kind |
| RunReports.SampleTells | src/sourceos_syncd/policy.py:267-275 | The sample of decisions in the diagnosis: the first twelve of four per lane, each with its action, lane, status and reason |
| RunReports.ProducersShown | src/sourceos_syncd/local_store.py:402 | The top producers as they are written: one object for each in rank order, with its name and the number of its events |
| RunReports.RunsAffectExactly | src/sourceos_syncd/reports.py:578-584 | After any run the diagnosis names lane repair as affected exactly when a line was damaged, and no other lane ever |
| Orchestration.StateExactly | src/sourceos_syncd/orchestration_events.py:112-171 | Where a record goes, by an if-and-only-if for each state: acceptable records by their outcome, all others to the dead letters |
| Orchestration.EventQueue.EnqueueRecords | src/sourceos_syncd/orchestration_events.py:195-216 | The batch loop takes effect record by record up to the first key that makes no file name, and nothing is undone; the i-th answer has the key, state and errors of the i-th record, says queued exactly when its file was not there before and no earlier record of the batch goes to it, and agrees with the audit entry written for it |
| Orchestration.AnswersAreTrue | src/sourceos_syncd/orchestration_events.py:195-216 | After any run: an answer has no errors exactly for an acceptable record, and says queued exactly when no record processed so far, in this batch or before it, went to the same file |
| Orchestration.ProblemsExactly | src/sourceos_syncd/orchestration_events.py:112-152 | Each of the eight problems is reported exactly for its own fault |
| Orchestration.NamelessRecordsShareAFile | src/sourceos_syncd/orchestration_events.py:201-203 | All records with neither a key nor an id share one dead letter: in every run only the first is kept and each later one is audited as its duplicate |
| Orchestration.RunsAreConsistent | src/sourceos_syncd/orchestration_events.py:195-216 | Over every run of batches each file is where its record validates to, every audited key has its file and every file its entry, and there are as many files as queued entries |
| Orchestration.RunsAreTraced | src/sourceos_syncd/orchestration_events.py:195-216 | Over every run the i-th audit entry is that of the i-th processed record with its key, state and ids, it says queued exactly when no earlier record went to the same file, and the files are exactly the targets of the records, each holding the first record that went there |
| Orchestration.RunsOnlyExtend | src/sourceos_syncd/orchestration_events.py:195-216 | Over every run no file is changed or removed and the audit log only grows |
| Orchestration.FilesAreWhereTheyBelong | src/sourceos_syncd/orchestration_events.py:199-213 | In every run the file at (state, name) holds a record that validates to that state and whose sanitised key is that name |
| Orchestration.PendingIsSafe | src/sourceos_syncd/orchestration_events.py:137-152 | In every run pending holds only acceptable records, and a high-risk one only as redacted, never as allowed |
| Orchestration.ReenqueueIsIdle | src/sourceos_syncd/orchestration_events.py:202-214 | Enqueuing a batch again, even one that raises half-way, changes no directory and queues nothing |
| Orchestration.ExactlyOnceByKey | src/sourceos_syncd/orchestration_events.py:60-67 | In every run, no processed key is lost to the file of another key and no key has two files exactly when the processed records go to the same file exactly when they have the same key |
| Orchestration.OneKeyCanBeQueuedTwice | src/sourceos_syncd/orchestration_events.py:202-203 | A batch with one key first allowed and then denied leaves exactly two files that hold it, one in pending and one in blocked |
| Orchestration.OneKeyCanBeLost | src/sourceos_syncd/orchestration_events.py:199-214 | A batch with key "k " and then key "k", both allowed, leaves one file; it holds the first key, the second is audited as a duplicate and no file holds it |
| Orchestration.NamesRepeatExactly | src/sourceos_syncd/orchestration_events.py:199-203 | In every run a file name is in two directories exactly when two processed records with that sanitised key validate to different states |
| Orchestration.TwoKeysCanShareAName | src/sourceos_syncd/orchestration_events.py:199-203 | A name in two directories need not break the promise: two different keys with one file each |
| Orchestration.EventQueue.List | src/sourceos_syncd/orchestration_events.py:223-233 | The loops list the files of the asked state, or of all four |
| Orchestration.ListingIsExact | src/sourceos_syncd/orchestration_events.py:223-233 | A listing shows exactly the files of the directory its text stands for, any unknown text standing for the dead letters |
| Orchestration.ListedLines | src/sourceos_syncd/orchestration_events.py:230-232 | Listed line by line in the order of the file names, each line with the content of its file |
| Orchestration.ListedRecordsBelong | src/sourceos_syncd/orchestration_events.py:174-181 | After any run each line of a listing holds a record that belongs under the text it was asked for: acceptable ones by their outcome, all others under any other text |
| Orchestration.EventQueue.Replay | src/sourceos_syncd/orchestration_events.py:236-250 | A replay writes only its own file |
| Orchestration.PendingReplayIsSafe | src/sourceos_syncd/orchestration_events.py:236-250 | After any run a replay of pending moves nothing and hands out only acceptable records, none of them high-risk and allowed |
| Orchestration.LaterReplayKeepsEarlier | src/sourceos_syncd/orchestration_events.py:236-250 | A stored replay is the listing of its state, and a replay of the same state under another clock is stored beside it |
| Orchestration.EventQueue.Summarize | src/sourceos_syncd/orchestration_events.py:253-263 | The four directory counts, which add up to the number of files |
| Schemas.ValidatesExactly | tools/validate_orggov_state_integrity_binding.py:58-88 | A value is accepted exactly when no subschema that applies anywhere in it has a broken keyword, with types told by the values they stand for and equality by structure |
| Schemas.RejectionIsGrounded | tools/validate_orggov_state_integrity_binding.py:58-88 | A rejection names a place in the value, the first keyword, in their order, that is broken there, and nothing is broken on the way to it |
| Schemas.TypesExactly | tools/validate_orggov_state_integrity_binding.py:33-55 | The type test for every value and every name: the seven types by the values they stand for, any other name standing for none |
| Schemas.PythonEqualExactly | tools/validate_orggov_state_integrity_binding.py:59-62 | The comparison of the checker is equality by structure with True for 1 and False for 0 |
| Schemas.StandardEqualExactly | tools/validate_orggov_state_integrity_binding.py:59-62 | The comparison of JSON Schema (Core section 4.2.2) is equality by structure with booleans apart from numbers |
| Schemas.ValidatesTheStandard | tools/validate_orggov_state_integrity_binding.py:58-88 | For every schema and value where at no location a boolean is compared with the number it equals and no float such as 1.0 is asked to be an integer only, acceptance is satisfaction in the sense of JSON Schema 2020-12 (Validation sections 6.1.1 to 6.1.3 and 6.5.3, Core sections 10.3.1.2, 10.3.2.1 and 10.3.2.3) |
| Schemas.DisagreesExactly | tools/validate_orggov_state_integrity_binding.py:58-88 | An accepted value violates JSON Schema exactly when a constant or enumeration was met only by taking a boolean for a number somewhere in it; a value that satisfies JSON Schema is rejected exactly when a whole float is asked to be an integer only |
| Schemas.EqualUnlessClash | tools/validate_orggov_state_integrity_binding.py:59-62 | Two values are equal in JSON Schema exactly when they are equal in Python and no boolean meets a number at one position |
| Schemas.EqualityAgreesExactly | tools/validate_orggov_state_integrity_binding.py:59-62 | Equality with a constant is the equality of JSON Schema for every value exactly when the constant contains no boolean, 0 or 1 |
| Schemas.WholeFloatIsRefused | tools/validate_orggov_state_integrity_binding.py:33-55 | A float is refused where an integer is asked for, while JSON Schema refuses it exactly when it has a fractional part |
| Schemas.AmbiguousConstantIsFooled | tools/validate_orggov_state_integrity_binding.py:59-62 | Any other constant accepts a value that JSON Schema rejects |
| ServiceGraph.GraphSummary | tools/sourceos_service_graph.py:127-166 | The nested loops build one node per service in the order of the list, and an index and two groupings with exactly the right ids under each key, sorted |
| ServiceGraph.NodesShow | tools/sourceos_service_graph.py:132-151 | The i-th node shows the names and flags of the i-th service, its owner as org/repo with None for what is missing, and under each use exactly the capabilities it names so, each once and in order |
| ServiceGraph.IndexInverts | tools/sourceos_service_graph.py:152-157 | A service is listed under a capability and use exactly when it names it so, as often as there are such services with its id |
| ServiceGraph.GroupsPartition | tools/sourceos_service_graph.py:134-139 | The authority-domain groups and the owner groups each partition the services |
| ServiceGraph.OrderShowsInNodesOnly | tools/sourceos_service_graph.py:127-166 | For any permutation of the services, duplicates and shared ids included, the count, the index and both groupings are the same and the node lists are permutations of each other; when no manifest was loaded twice the whole graph is the same exactly for the same order |
| ServiceGraph.NodesDetermineTheGraph | tools/sourceos_service_graph.py:132-166 | Two graphs of any services are equal exactly when their node lists are: the index and the groupings hold nothing the nodes do not |

## Left out

- HTTP, TLS, the Katello client, `service.py` and the remote policy client: the answers are inputs, policy is the local table.
- Subprocesses, `shutil.which`, minisign and signals: oracle inputs; a command has an exit code, a time-out or an exception.
- SHA-256 keys, digests and UUIDs: noise keys are the triples that are hashed, and receipt names are assumed fresh where a theorem says so.
- JSON text, files and directories: a journal line is blank, corrupt or an event, a directory is a map, writes are whole, and a failing write of a receipt or version is not modelled.
- Records and events with fields of other types than text: event, registry and attestation fields are texts, an attestation file holds an object or is absent; a numeric or null lane, producer or field is not modelled.
- Error texts: each error names its place. Missing top-level and plan keys are one error per key here, one message for all in the code, and items of an object are visited in sorted instead of insertion order.
- Values on which the validators raise (lists where a set member is looked up, text methods on numbers): here such values are errors. `Reports.Readable` says where the other report functions do not raise.
- `datetime.fromisoformat` and Unicode `isalnum` are parameters; instants are whole milliseconds, and mixing dated and zoneless instants is not modelled.
- Lag counts given as numeric text: the code converts them, here they count as 0 and are outside `Reports.Readable`.
- Readings of the host are inputs; theorems about store reports ask that the clock's text parses, the pid and the node hash are well formed, and the disk has a positive size with at most that much free (`StoreReports.HostOk`).
- The start-up from the environment: only what the poll loop reads of it; the credentials, the URL and the store directory are left out.
- Operator text other than the summary of a diagnosis, the overall status of `verify`, descriptions of repair steps, and the ids (digests) and boundary blocks of the sampled policy decisions; the causes and actions of a diagnosis are sets until they are written out sorted.
- Report fields that no modelled function reads, such as policy names, commit and flag names; nested updates of collection, identity and policy replace the section by its final value.
- The service audit and the release-gate audit: copies and field checks.
- `extract_records`, `bundle_to_records`, `list_records`, `list_receipts`, and the validators of scorecards and trust decisions: field copies and checks that would add only easy members.
- The trust gate's branch for the statuses stale and unknown: no diagnosis has them.
- Schemas that are `true` or `false` instead of objects, and keywords the checker does not read.
- `cli.py`, narrative, coherence, authority, systema, harvest, evidence, contracts and the other tools.
