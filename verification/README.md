# AZ-06 control plane: a verified model

AZ-06 hosts deception environments. It consumes one-shot Edge decisions, starts and stops containers through
Docker Compose, keeps a hash-chained evidence log, derives feedback bundles from that log, detects isolation drift
and measures itself doing so. This project models the parts of it that must stay consistent under I/O failure,
crashes, races and retries, and proves what they keep.

The modules, in dependency order:

| modules | models |
|---|---|
| `EvidenceChain`, `EvidenceFile` | the evidence log: as parsed records with a hash chain, and as the bytes of one file under short writes, failures and rollback |
| `DecisionLedger`, `StateFile` | the one-shot decision marker and the atomically replaced state file, as interleaved steps over a volatile and a durable directory |
| `Lifecycle`, `LifecycleGuards` | activate, terminate, emergency stop and reset, against a Docker that may fail any call and leave the container up or down; when each goes ahead |
| `Feedback`, `FeedbackBundle` | deriving a bundle from a log, building and verifying it |
| `BundleFacts`, `BundleContents`, `BundleAcceptance`, `Refusals`, `BundleAge`, `FrameFacts` | what a bundle is, field by field, what it tells of the log, when it is built and accepted and with which refusal otherwise, how old it is, and turning it into MIO facts |
| `Sessions`, `AllClear`, `Reporting` | the lifecycle and the bundle together: no false all-clear, and which sessions can be reported |
| `BoundObserver`, `ObservationExport`, `ObservationRelay` | recording bound interactions, exporting them, polling with a cursor |
| `EffectBinding` | racing binders of one effect, with a temporary file, a hard link and a read-back |
| `DriftObserver`, `DriftHistory` | the drift observer and its log over restarts |
| `DriftLab`, `So08Record`, `So08Lab`, `So08Facts`, `So08Evidence` | the SO-08 harness: its two threads, its record validator, the record it assembles, and both together |
| `Json`, `Overlay`, `OverlayFacts`, `OverlayReduction` | rendering a Lite profile as a reduction of a signed package, and its independent checker |
| `Persona`, `PersonaSchedule`, `PersonaFacts` | working-hour segments, the session machine and schedules |
| `Common`, `Events`, `Text` | options and results, event types, decimal text and sorted string lists |

SHA-256, HMAC and JSON are functions with stated laws (`EvidenceChain.Lawful`, `EvidenceFile.Lawful`,
`Feedback.Lawful`): the hash of a record determines the record, its text is one line that reads back, and nothing but
JSON white space can stand before it on its line. Sequences of steps stand for interleavings of threads and processes;
a crash step falls back to what is durable.

## What the proofs found

Where the source and its own comments differ, the model follows the source.

- **Directory fsync is best effort, and authority rests on it.** `_fsync_dir` swallows its errors. With it working, at
  most one call ever consumes a decision; after any call that returned True, a second one can win exactly when the
  marker's directory entry is not yet durable (`SecondWinPossibleIffNotDurable`). The effect binding never syncs its
  directory at all, so the same holds there (`AnotherEffectPossibleIffNotDurable`).
- **What the chain detects.** An edit survives verification only on the last record, resealed there; a rearrangement
  of records survives only as a prefix of the log, which the exported head hash then tells apart.
- **Project names collide.** `_project_name` folds case and drops characters, so environments `A` and `a` share one
  Compose project. For any two such ids, stopping one and starting the other leaves a container up under a terminated
  record; for a set of environments the record, and the all-clear of a bundle, can be trusted on every run exactly when
  their projects differ (`OwnRecordIffProjectsDiffer`, `NoFalseAllClearIffProjectsDiffer`).
- **A stop without Docker is blind.** An emergency stop through an adapter with live execution off records "terminated"
  without calling Docker; it goes wrong exactly when its own container is up (`BlindStopExactly`).
- **Stops that overlap other calls are not safe.** A stop writes back the record it read; with an activation in between
  the container is up under a terminated record (`OverlappedStopExactly`). The run results are about calls in turn.
- **Failures take a session's record.** A recorded activation or termination failure overwrites the state with no package
  digest and its own decision, and later successes keep that. Such a session gets no bundle again until a reset, not even
  one that says "failed" (`StoppedIsReportableIff`, `ResetIsReportableIff`, `NeverReportsFailed`). A failed kill switch
  blocks bundles only until a stop succeeds.
- **Only the first 256 contacts age a bundle.** After them its newest evidence stands still, so a busy session's bundles
  all become stale however new its contacts (`StaleForGood`, `NoisyVisitorIsStale`).
- **A record can follow its session's end.** `BoundObserver` checks for a live session before it takes its lock
  (`LateRecordPossibleIff`).
- **Two cycles and the look at the active set are both needed.** A reverted drift may fade only later. One cycle can
  then read an earlier drift's record, and any number of cycles without the look can miss the next drift; the harness'
  wait is exactly long enough, and its own sample of the lab adds nothing (`SoundIffWaitsEnough`).
- **A failed append and a restart can repeat a drift event id.** A drift observer spends a number before its append, and
  its successor counts records. `RepeatingHistory` is the shortest such history, `EventIdsRepeatIff` says exactly which
  histories repeat an id, and `FutureIsSafeIff` which observers never will.
- **The export cursor needs its id to be unique.** It finds the first record with the id. Bound observers always meet
  that; plain `InteractionObserver`s, each of which numbers from 1, do not, and a relay polling over two of them can
  receive a bound observation twice (`RelayReceivesEachOnceIff`, `SecondPlainObserverRepeats`).
- **Edge details of a field exercise are checked only when they are a mapping.** A record with any other non-empty value
  in `field_exercise.edge` is just as valid (`EdgeDetailsHoldIffMapping`,
  `UnreadEdgeIsValid`).
- **Repeated ids are judged by their last use.** The reduction checker looks tiers and components up by id and finds the
  last one, so it can refuse a rendering that drops nothing; `RenderPassesIff` gives the exact condition,
  `RepeatedTierExists` a package.
- **Login-only and logout-only vocabularies do not alternate.** Every other vocabulary does (`AlternatesIff`). The
  `timezone` of a persona only enters the hash: working hours are those of the window start's own UTC offset.

## Model

| member | source | states |
|---|---|---|
| EvidenceChain.VerifyEvidenceChain | src/azazel_deception/runtime/state.py:253-290 | The single pass accepts exactly the logs in which every line is a mapping numbered by its index, linked to its predecessor's stored hash, and carrying its own hash |
| EvidenceChain.HeadCommitsToHistory | src/azazel_deception/runtime/state.py:235-251 | Two verifying logs with the same head hash are equal record for record |
| EvidenceChain.RearrangementVerifiesIffPrefix | src/azazel_deception/runtime/state.py:253-259 | Whatever deletion, reordering or repetition makes of a verifying log verifies if and only if it is a prefix of that log |
| EvidenceChain.EditVerifiesIffResealedTail | src/azazel_deception/runtime/state.py:238-243 | An in-place edit verifies if and only if it is on the last record and reseals it; an edit that keeps the stored hash never does |
| EvidenceChain.AppendVerifiesIffLogDid | src/azazel_deception/runtime/state.py:169-188 | Corruption is never laundered: the log after an append verifies if and only if it did before |
| EvidenceChain.LogIsIntact | src/azazel_deception/runtime/state.py:158-188 | A log made by appends alone verifies and holds the events in order |
| EvidenceChain.NextRecordTells | src/azazel_deception/runtime/state.py:169-188 | The record an append builds: the event under the number that follows the last one, tied to the last hash and sealed with its own; none exactly when the last line is no mapping or its number cannot be read |
| EvidenceChain.HeadTells | src/azazel_deception/runtime/state.py:235-251 | The head for every log: none, an error, or the last stored hash |
| EvidenceFile.EvidenceFile.WriteAll | src/azazel_deception/runtime/state.py:51-55 | Under any positive short writes the file gains exactly the given bytes in order, or the prefix written before the failure |
| EvidenceFile.EvidenceFile.AppendEvidence | src/azazel_deception/runtime/state.py:158-219 | The whole new file text and the outcome, for every write, fsync and truncation outcome: the record's line appended, the text unchanged after a rollback, or a torn line when rollback fails too |
| EvidenceFile.ProgressTells | src/azazel_deception/runtime/state.py:51-55 | The write loop raises if and only if some write fails while bytes are missing, and then exactly what the writes before it wrote is in the file |
| EvidenceFile.AppendTells | src/azazel_deception/runtime/state.py:158-219 | An append returns if and only if the last line could be read, no write failed before the line was out and the fsync worked; and the text it leaves in every other case |
| EvidenceFile.SuccessfulAppendVerifiesIff | src/azazel_deception/runtime/state.py:173-188 | On the bytes: after a successful append the file verifies if and only if it verified before and ended in a complete line, JSON padding aside |
| EvidenceFile.HistoryIsLogOfReturned | src/azazel_deception/runtime/state.py:189-218 | Over any history of short writes and failures whose rollbacks work, the file is exactly the verifying log of the appends that returned |
| DecisionLedger.OneShotAuthority | src/azazel_deception/runtime/state.py:124-153 | Over every interleaving of consumers, write failures, kills and crashes at most one call returns True, and the marker is there for ever after |
| DecisionLedger.SecondWinPossibleIffNotDurable | src/azazel_deception/runtime/state.py:58-79 | When a directory fsync may silently fail, a second call can return True after a first if and only if the marker's directory entry is not durable |
| DecisionLedger.TakenIffHeld | src/azazel_deception/runtime/state.py:124-153 | Without kills, crashes and failing unlinks a call loses if and only if another is at work on the decision or has won it; a failed write leaves it free |
| DecisionLedger.StillWinnableIff | src/azazel_deception/runtime/state.py:135-153 | Short of a crash some call can still win if and only if the marker is gone or a call is at work on it: a killed call spends the decision |
| DecisionLedger.EndTells | src/azazel_deception/runtime/state.py:124-153 | How each call can end, and which steps change the marker and what of it is durable |
| StateFile.CrashLeavesOldOrNew | src/azazel_deception/runtime/state.py:108-122 | A crash at any point of any history of writes leaves `read` returning the whole old or the whole new state |
| StateFile.ReturnedWriteIsDurable | src/azazel_deception/runtime/state.py:112-122 | What a write that returned installed is what `read` returns, and a crash does not take it back |
| StateFile.WriteCompletes | src/azazel_deception/runtime/state.py:108-122 | From every idle state, whatever an earlier write left behind, a write can run to its end and is then read back, after a crash too |
| StateFile.CrashNeverTears | src/azazel_deception/runtime/state.py:108-122 | Whatever the directory fsyncs did, `read` returns nothing or the whole of what some write was given, before and after a crash |
| StateFile.ReturnedWriteSurvivesIff | src/azazel_deception/runtime/state.py:58-79 | A returned write is lost by a crash if and only if its directory fsync failed and the directory on disk leads to other content |
| Lifecycle.DockerComposeAdapter.ConsumeDecision | src/azazel_deception/runtime/compose.py:278-289 | A decision is granted at most once; a raising store grants nothing but may leave the marker |
| Lifecycle.DockerComposeAdapter.RunCompose | src/azazel_deception/runtime/compose.py:180-208 | Whatever the call does, only the environment's own project changes: up or down as asked when it succeeds, either way when it fails, untouched when the id has no project |
| Lifecycle.DockerComposeAdapter.RecordFailure | src/azazel_deception/runtime/compose.py:291-327 | The failed state is written first, then the failure evidence |
| Lifecycle.DockerComposeAdapter.ActivateEnvironment | src/azazel_deception/runtime/compose.py:329-401 | The new state, ledger, evidence and container after an activation, on every branch |
| Lifecycle.DockerComposeAdapter.TerminateEnvironment | src/azazel_deception/runtime/compose.py:502-558 | The same for a termination |
| Lifecycle.DockerComposeAdapter.EmergencyStopEnvironment | src/azazel_deception/runtime/compose.py:561-639 | The same for the kill switch, which writes evidence before state |
| Lifecycle.DockerComposeAdapter.ResetEnvironment | src/azazel_deception/runtime/compose.py:682-715 | The same for a reset, refused while a container may be running |
| Lifecycle.LifecycleSafety | src/azazel_deception/runtime/compose.py:278-401 | Over all runs of calls that do not overlap, with arbitrary compose and append failures, a container up means an environment of its project recorded active, failed or kill_switch_failed, and every compose-up had its own consumed decision |
| LifecycleGuards.ActivationStartsIff | src/azazel_deception/runtime/compose.py:329-401 | Compose-up is called if and only if the call parses, is live, passes its gates, finds no record or one saying terminated, failed or reset, and is granted its decision; otherwise only the ledger can change |
| LifecycleGuards.ActivationWrites | src/azazel_deception/runtime/compose.py:371-401 | The record and the event of a started activation, for either outcome of Docker |
| LifecycleGuards.TerminationIff | src/azazel_deception/runtime/compose.py:502-558 | When a termination is granted, finds nothing, calls Docker and succeeds, and what a refused one leaves alone |
| LifecycleGuards.TerminationWrites | src/azazel_deception/runtime/compose.py:516-558 | The record and the event of a termination that goes ahead, for either outcome of Docker |
| LifecycleGuards.StopIff | src/azazel_deception/runtime/compose.py:561-639 | A stop needs operator and reason and no decision; it calls Docker if and only if it is live and the record says a container may be running; without its evidence nothing is written |
| LifecycleGuards.StopWrites | src/azazel_deception/runtime/compose.py:608-639 | The record and the event of a stop, for either outcome of Docker |
| LifecycleGuards.ResetIff | src/azazel_deception/runtime/compose.py:682-715 | A reset goes ahead if and only if the record says nothing may be running; it records itself first, removes the record, and never calls Docker |
| LifecycleGuards.EveryStartWasAllowed | src/azazel_deception/runtime/compose.py:345-371 | Over runs: every compose-up came from a live, gated call on a free environment with a decision that was new |
| LifecycleGuards.ProjectTells | src/azazel_deception/runtime/compose.py:174-178 | The project name: the kept characters of the id, lowered and in order, cut at 63, or none |
| Lifecycle.ContainerUpIsRecorded | src/azazel_deception/runtime/compose.py:682-709 | For an environment with its own project, container up implies it is itself recorded so, and a reset that succeeds finds the container down |
| Lifecycle.ContainerCanBeStopped | src/azazel_deception/runtime/compose.py:608-634 | Whatever failed before, a container that is up can be stopped: a live emergency stop is not refused, needs no decision and leaves the record terminated |
| Lifecycle.EvidenceOnlyGrows | src/azazel_deception/runtime/compose.py:516-558 | Each environment's evidence only ever grows by extension |
| Lifecycle.BlindStopExactly | src/azazel_deception/runtime/compose.py:608-634 | After any run with live stops, a stop with live execution off leaves a running container unaccounted for if and only if it records itself while its own container is up |
| Lifecycle.OverlappedStopExactly | src/azazel_deception/runtime/compose.py:585-635 | Where a live stop read its record earlier and other calls came in between, it leaves a running container unaccounted for if and only if it records itself on a record that was not maybe running while the container has come up, or fails at Docker unrecorded after another stop |
| Lifecycle.StopIsReadAndFinish | src/azazel_deception/runtime/compose.py:585-635 | With nothing in between, reading and finishing is the stop of the runs |
| Lifecycle.OwnRecordIffProjectsDiffer | src/azazel_deception/runtime/compose.py:174-178 | For every set of environments: on all runs over them with live stops a container up means its own environment is recorded maybe running, if and only if no two of them have one Compose project |
| Lifecycle.SharedProjectLeavesUp | src/azazel_deception/runtime/compose.py:174-178 | For every two ids of one project there is a run of live calls that leaves the container up under a terminated record |
| Feedback.CollectInteractions | src/azazel_deception/runtime/mio_feedback.py:1291-1316 | The interaction loop's bound observations and unbound count, refused exactly when some record is invalid, oversized, repeated or out of the session's time |
| Feedback.CountContacts | src/azazel_deception/runtime/mio_feedback.py:1154-1160 | The two counters as folds over the interactions; what those count is the next two rows |
| BundleFacts.ContactsAreCounted | src/azazel_deception/runtime/mio_feedback.py:1156-1158 | One counter entry for each class and surface that occurs, none other, with the number of its contacts |
| BundleFacts.TagsAreCounted | src/azazel_deception/runtime/mio_feedback.py:1159-1160 | One counter entry for each confounder tag that occurs, none other, with the number of its occurrences |
| Feedback.EntriesOfHypothesis | src/azazel_deception/runtime/mio_feedback.py:1173-1210 | One entry for each desired pair, in order |
| Feedback.ObjectiveCoverage | src/azazel_deception/runtime/mio_feedback.py:1146-1217 | Every hypothesis against every desired pair, in order, with its status and counts, and the two counters over the interactions |
| BundleFacts.CoverageTells | src/azazel_deception/runtime/mio_feedback.py:1146-1217 | The whole coverage section, with or without an objective: its counters are the numbers of contacts and of tags, the rest is the objective's or empty |
| Feedback.DeriveBundle | src/azazel_deception/runtime/mio_feedback.py:1250-1529 | The derivation step by step, with its loops, gives the bundle or the first refusal that the specification gives |
| Feedback.AssembleBundle | src/azazel_deception/runtime/mio_feedback.py:1317-1529 | The part of it after the records are selected |
| Feedback.ProjectTerrain | src/azazel_deception/runtime/mio_feedback.py:1379-1391 | Terrain is projected from the last reset or else the last termination, and only with assertions and a mechanism |
| BundleContents.DerivedIff | src/azazel_deception/runtime/mio_feedback.py:1233-1529 | A bundle is derived from an intact log if and only if it is, field by field, the one the records after the activation, the chain and the inputs call for and everything it is made of is in order |
| BundleContents.StatusIsShown | src/azazel_deception/runtime/mio_feedback.py:1393-1406 | Which status and reason the effect observation is made from, by log position: drift, else the overrun lease, else the last termination's reason or a default, else failure; none only while the session may still run |
| BundleContents.EffectIff | src/azazel_deception/runtime/mio_feedback.py:1405-1423 | The effect observation is the helper's answer for exactly that status, or none inside the effect's own window |
| BundleContents.TerrainIff | src/azazel_deception/runtime/mio_feedback.py:1379-1391 | Terrain is projected with the time and hash of the last reset or else the time of the last termination, only with assertions and a mechanism |
| BundleContents.EnvelopeIff | src/azazel_deception/runtime/mio_feedback.py:1425-1463 | The envelope is made from the bundle's own gaps, counts and exactly the tags of its interactions |
| BundleContents.CollectsIff | src/azazel_deception/runtime/mio_feedback.py:1291-1316 | The interaction loop goes through if and only if no later record is invalid and the bound ones are small, in time and have ids of their own |
| Refusals.EarlyRefusals | src/azazel_deception/runtime/mio_feedback.py:1249-1348 | Which refusal a derivation gives before anything is assembled: effect, evidence, session, contacts, future evidence, lease, in this order |
| Refusals.LateRefusals | src/azazel_deception/runtime/mio_feedback.py:1383-1528 | And after that: terrain, effect, envelope, cleanliness, in this order, or else the bundle |
| FeedbackBundle.BuildFeedbackBundle | src/azazel_deception/runtime/mio_feedback.py:1588-1616 | Check by check, through the derivation above: the bundle or the first refusal the specification gives; a built bundle leaves a session key behind and nothing else changes |
| BundleAcceptance.BuiltIff | src/azazel_deception/runtime/mio_feedback.py:1588-1616 | A request gets a bundle if and only if it describes the whole intact log, declarations, objective and mechanism are in order, and the state file is the session's own and says the same, or is gone after a reset |
| BundleAcceptance.IdentityIff | src/azazel_deception/runtime/mio_feedback.py:797-808 | Which state file is the chain's own, and the refusal for every one that is not |
| Refusals.BuildRefusals | src/azazel_deception/runtime/mio_feedback.py:1588-1616 | The refusal is that of the first of seven checks that fails, then the derivation's, then a disagreeing state |
| FeedbackBundle.VerifyFeedbackBundle | src/azazel_deception/runtime/mio_feedback.py:1687-1787 | Check by check, with its loops and the derivation above: acceptance or the first refusal the specification gives |
| BundleAcceptance.AcceptedIff | src/azazel_deception/runtime/mio_feedback.py:1687-1787 | At any moment: accepted if and only if the bundle describes the intact log up to the head it names, that head is last unless an audit asks for less of a bundle that claims nothing live, it is not from the future, its evidence is within max_age, and a live claim has no end on record and falls inside the lease |
| BundleAcceptance.RoundTripAtIff | src/azazel_deception/runtime/mio_feedback.py:1567-1787 | Built at one moment and verified at any other on the unchanged store: accepted if and only if the build is not in the future, the newest kept evidence is within max_age, the kept contacts are the chain's own and, for a session that ran clean in its lease, the lease is open; all read off the log |
| BundleAcceptance.TimeRefusals | src/azazel_deception/runtime/mio_feedback.py:1768-1784 | Which refusal the moment of verification gives: stale, then the session's end, then lease expired, then lease not started |
| BundleAcceptance.ChainRefusalTells | src/azazel_deception/runtime/mio_feedback.py:1623-1696 | The refusal names the first group of chain fields in which the two differ |
| BundleAcceptance.ContactRefusalTells | src/azazel_deception/runtime/mio_feedback.py:1701-1710 | The refusal of the first contact at fault says what is wrong with it |
| Refusals.VerifyRefusals | src/azazel_deception/runtime/mio_feedback.py:1687-1787 | The refusal is that of the first of ten checks that fails, then the rebuilding's, then another bundle, then the moment's |
| FeedbackBundle.CheckInteractions | src/azazel_deception/runtime/mio_feedback.py:1701-1710 | The refusal of the first interaction that is unbound or names another environment, node or package |
| FeedbackBundle.FindEnd | src/azazel_deception/runtime/mio_feedback.py:1775-1779 | The refusal for the first later record that ends the session |
| FeedbackBundle.NoEndIff | src/azazel_deception/runtime/mio_feedback.py:1775-1779 | There is none if and only if no later record resets, terminates or activates |
| FeedbackBundle.DeriveIsPrefixStable | src/azazel_deception/runtime/mio_feedback.py:1254-1280 | Deriving at an earlier head of an extended intact log equals deriving from the log as it was then |
| FeedbackBundle.DerivationIsSound | src/azazel_deception/runtime/mio_feedback.py:1233-1529 | `_derive` is prefix stable, and every bundle it gives names its log's head, echoes its inputs, holds only interactions that carry the chain's references, and gives the fold of the session |
| FeedbackBundle.AcceptedIsDerived | src/azazel_deception/runtime/mio_feedback.py:1712-1765 | Nothing is accepted but what an intact log, cut at the head the bundle names, derives to |
| FeedbackBundle.AcceptedIsCurrent | src/azazel_deception/runtime/mio_feedback.py:1722-1727 | A bundle accepted as current, and any accepted one that claims a live session, is derived from the whole log as it stands |
| FeedbackBundle.AcceptedBundlesAgree | src/azazel_deception/runtime/mio_feedback.py:1680-1684 | Two accepted bundles of one chain, whichever log is longer, are equal once head, build time, max_age, mechanism, declarations and objective presence agree |
| BundleAge.BuiltIsAcceptedIffKeptIsFresh | src/azazel_deception/runtime/mio_feedback.py:1567-1787 | Round trip, read off the log: a built bundle is accepted at the same instant on the unchanged store if and only if the latest of the session's start and its first 256 bound contacts is within max_age and those contacts name the chain's environment, node and package |
| BundleAge.NewestKeptIsNewestIff | src/azazel_deception/runtime/mio_feedback.py:1317-1329 | That latest time is the newest evidence if and only if no contact past the 256th is newer than all before it |
| BundleAge.StaleForGood | src/azazel_deception/runtime/mio_feedback.py:1317-1329 | Once 256 contacts are older than max_age, every bundle built from any longer log is refused as stale |
| BundleAge.NoisyVisitorIsStale | src/azazel_deception/runtime/mio_feedback.py:1317-1329 | A log of 257 contacts whose newest evidence is 0 seconds old and whose bundle any max_age below 100 refuses |
| BundleAge.BoundBundleIsAcceptedIff | src/azazel_deception/runtime/mio_feedback.py:914-1013 | For contacts a bound observer recorded, only that age is left to decide |
| BoundObserver.BoundObserver.Record | src/azazel_deception/runtime/mio_feedback.py:944-1013 | Where nothing comes between its live check and its append: exactly one stamped record is appended, in a live session only, and the chain still verifies; a refusal changes nothing |
| BoundObserver.LiveCheckIff | src/azazel_deception/runtime/mio_feedback.py:811-836 | On an intact log the live check passes if and only if the record at the generation is the chain's activation, no later one activates or resets, and the state file exists, is the chain's own and says active |
| BoundObserver.LiveRefusals | src/azazel_deception/runtime/mio_feedback.py:811-836 | Otherwise: a reset first, then another session, then a state file missing, not its own field by field, or not active |
| BoundObserver.StampedIff | src/azazel_deception/runtime/mio_feedback.py:960-997 | From which times a contact is taken, with which refusal otherwise, and what the record carries |
| BoundObserver.RecordedIff | src/azazel_deception/runtime/mio_feedback.py:944-1013 | A contact is recorded if and only if the log is intact, the session live, the time within the skew of session and clock, and the arguments are in order |
| BoundObserver.CheckIsLiveCheck | src/azazel_deception/runtime/mio_feedback.py:960-960 | What ties the numbering steps' check to that live check |
| BoundObserver.BoundRecordIsMarked | src/azazel_deception/runtime/mio_feedback.py:986-997 | A bound record carries every chain reference and names the chain's environment, node and package; unmarked, it was observed inside the lease |
| BoundObserver.NextNumberIsLength | src/azazel_deception/runtime/mio_feedback.py:934-937 | In an intact log the drawn number is the log's length, above every number in use |
| BoundObserver.IdTextInjective | src/azazel_deception/runtime/mio_feedback.py:937-937 | Equal id texts have equal numbers, whatever the generations |
| BoundObserver.IdsIncreaseAndNeverRepeat | src/azazel_deception/runtime/mio_feedback.py:998-1013 | Over any number of observers and sessions, with live checks before the lock and other writers appending between the draw and the append, bound ids strictly increase in log order and never repeat |
| BoundObserver.LateRecordPossibleIff | src/azazel_deception/runtime/mio_feedback.py:960-1000 | After a session has ended a bound record can still follow if and only if some call had passed its live check by then or holds its number |
| BoundObserver.LateRecordHappens | src/azazel_deception/runtime/mio_feedback.py:960-1000 | A run in which one does |
| BoundObserver.DrawnIsKept | src/azazel_deception/runtime/mio_feedback.py:939-1000 | Under the lock a drawn number stays its call's until that call appends or gives up |
| BoundObserver.RecordIsDrawAndAppend | src/azazel_deception/runtime/mio_feedback.py:934-937 | What ties the numbering steps to `Record`: it stamps the id the draw holds and appends where the append puts it |
| ObservationExport.ExportObservations | src/azazel_deception/runtime/observation_export.py:39-76 | The interaction records in append order, refused when a stored one is invalid |
| ObservationExport.ObservationsSince | src/azazel_deception/runtime/observation_export.py:79-111 | What stands after the first record with the cursor's id, everything without a cursor, an error for an unknown one |
| ObservationExport.NextPollIsTheRestIff | src/azazel_deception/runtime/observation_export.py:100-111 | Polling a grown log with the last delivered id returns exactly what was not delivered if and only if that id did not occur earlier |
| ObservationExport.PollingDeliversOnceInOrder | src/azazel_deception/runtime/observation_export.py:84-92 | With distinct ids, polling any sequence of growing logs delivers every observation once and in order |
| ObservationRelay.DeliveryIsExactIff | src/azazel_deception/runtime/observation_export.py:100-111 | Over any growing logs, polling delivers every observation once and in order if and only if no cursor used has an id that occurs earlier |
| ObservationRelay.RelayReceivesEachOnceIff | src/azazel_deception/runtime/mio_feedback.py:925-942 | With bound, plain and other writers appending, that is so if and only if no poll ended on a plain observer's observation whose id occurs earlier: bound observations never disturb it |
| ObservationRelay.RelayReceivesEachOnce | src/azazel_deception/runtime/mio_feedback.py:925-942 | So it is whenever plain ids do not repeat |
| ObservationRelay.BoundIsNotPlain | src/azazel_deception/runtime/observation.py:87-89 | No bound id is a plain observer's id |
| ObservationRelay.SecondPlainObserverRepeats | src/azazel_deception/runtime/observation.py:85-89 | Two plain observers number from 1 each; a relay polling over both receives a bound observation twice |
| EffectBinding.BindersAgree | src/azazel_deception/runtime/mio_feedback.py:747-794 | In every interleaving all successful binds of a decision carry one effect id, which some binder proposed and which readers see whole |
| EffectBinding.AnotherEffectPossibleIffNotDurable | src/azazel_deception/runtime/mio_feedback.py:755-764 | Across crashes another effect can be bound later if and only if the link's directory entry is not durable |
| EffectBinding.BindsIff | src/azazel_deception/runtime/mio_feedback.py:747-794 | A prepared bind returns if and only if nothing is bound yet or the same effect is, and is refused otherwise; who bound before keeps theirs |
| EffectBinding.ReturnTells | src/azazel_deception/runtime/mio_feedback.py:747-794 | Over every interleaving what a returned and a refused bind found linked, and which steps change the link |
| FrameFacts.FrameInputs | src/azazel_deception/runtime/mio_feedback.py:1907-1951 | The known facts are exactly the entries observed clean, the unknowns exactly the gaps, lesser entries and flags, each once |
| FrameFacts.EntryMarkers | src/azazel_deception/runtime/mio_feedback.py:1913-1929 | Each entry gives a known fact if it was observed clean and otherwise an unknown, none repeated |
| FrameFacts.UnknownsTell | src/azazel_deception/runtime/mio_feedback.py:1907-1951 | Each kind of unknown is there if and only if the flag, gap or entry of the bundle calls for it |
| FrameFacts.DerivationIsGrounded | src/azazel_deception/runtime/mio_feedback.py:1171-1184 | Every entry `_derive` calls observed has a record of the log after the activation that carries all chain references, without confounder or lease mark |
| FrameFacts.KnownFactsAreGrounded | src/azazel_deception/runtime/mio_feedback.py:1907-1921 | Every known fact of an accepted bundle is backed by such a record, inside the lease when a bound observer recorded it |
| FrameFacts.DerivedFactsAreGrounded | src/azazel_deception/runtime/mio_feedback.py:1907-1921 | The same for `_derive` itself |
| BundleFacts.NothingIsLost | src/azazel_deception/runtime/mio_feedback.py:1291-1316 | The interaction loop keeps every bound observation after the activation, in log order, and counts every other one |
| BundleFacts.CarriesRefsIff | src/azazel_deception/runtime/mio_feedback.py:511-520 | What it takes to be bound: every objective, hypothesis, frame, decision, session and environment reference |
| BundleFacts.BundleTellsTheLog | src/azazel_deception/runtime/mio_feedback.py:1260-1378 | Both ways, by position in the log: session state, isolation status and drift count, the first 256 bound interactions and what was left out, the newest evidence among those, gaps and limits are each exactly what the records after the activation show, and the effect is withheld exactly while it may still run |
| BundleFacts.AcceptedTellsTheLog | src/azazel_deception/runtime/mio_feedback.py:1680-1684 | The same of every bundle accepted as current, and of every accepted one that claims a live session, against the log as it stands |
| BundleFacts.CoverageTellsContacts | src/azazel_deception/runtime/mio_feedback.py:1171-1210 | One entry per hypothesis and desired pair, at its place, whose status and count are what the contacts of that pair are: clean, confounded, outside the lease, or none |
| AllClear.BuiltMeansAgreement | src/azazel_deception/runtime/mio_feedback.py:1598-1615 | A bundle is built only where evidence fold and state file agree, or where the file is gone and the session was reset |
| AllClear.NeverRecordedReset | src/azazel_deception/runtime/compose.py:682-709 | No run ever leaves a state file that says reset: reset removes the file |
| AllClear.NoFalseAllClear | src/azazel_deception/runtime/mio_feedback.py:1272-1289 | On every run of calls that do not overlap, contacts, drift, failed compose calls and kill-switch retries included, a bundle that says terminated or reset is built only with the container down and the state file agreeing |
| Reporting.BuiltIffReportable | src/azazel_deception/runtime/mio_feedback.py:1598-1615 | Bundles are handed out only for a session whose own record agrees with its evidence, or whose record is gone after a reset; and always then, once request and derivation are in order |
| Reporting.StoppedIsReportableIff | src/azazel_deception/runtime/compose.py:291-327 | Over runs: a stopped session can be reported if and only if no call since its start took its record, by a recorded failure at Docker, another session or a recorded reset |
| Reporting.ResetIsReportableIff | src/azazel_deception/runtime/compose.py:682-709 | After a reset it can be reported as reset if and only if no other activation of the environment is on record since |
| Reporting.RetriedIsNotReportable | src/azazel_deception/runtime/compose.py:521-558 | A termination that fails and its retry: container down, file and evidence both terminated, and no bundle for the session |
| Reporting.NeverReportsFailed | src/azazel_deception/runtime/compose.py:302-312 | On no run does a session with a package digest get a bundle that says failed |
| AllClear.NoFalseAllClearForDerive | src/azazel_deception/runtime/mio_feedback.py:1607-1616 | The all-clear result for `_derive` itself |
| AllClear.NoFalseAllClearIffProjectsDiffer | src/azazel_deception/runtime/mio_feedback.py:1607-1616 | For every set of environments, given helpers that accept an ended session: on all runs over them with live stops no request gets a false all-clear, if and only if no two of them have one Compose project |
| AllClear.AcceptingReportsEnded | src/azazel_deception/runtime/mio_feedback.py:1233-1529 | Helpers that accept everything accept an ended session: its bundle is built |
| DriftObserver.RequireSnapshot | src/azazel_deception/runtime/isolation_drift.py:80-106 | A snapshot is taken if and only if it covers exactly the declared kinds with trimmed findings, and then unchanged |
| DriftObserver.RecordedDrift | src/azazel_deception/runtime/isolation_drift.py:207-237 | The number of drift records in a log |
| DriftObserver.IsolationDriftObserver.constructor | src/azazel_deception/runtime/isolation_drift.py:139-154 | A new observer has nothing active and continues from the number of drift records |
| DriftObserver.IsolationDriftObserver.ObserveKind | src/azazel_deception/runtime/isolation_drift.py:178-203 | One kind: its new findings in order, up to the append that fails, its active set updated only when all went through |
| DriftObserver.IsolationDriftObserver.Observe | src/azazel_deception/runtime/isolation_drift.py:161-204 | The findings not active are appended in kind and then finding order, up to the append that fails; the number spent and each kind's active set afterwards |
| DriftHistory.LookTells | src/azazel_deception/runtime/isolation_drift.py:161-204 | For any number of appends that succeed: the first so many rising findings are recorded, each with number, kind, finding and state; one number more is spent on a failure; a kind is brought up to date if and only if all its findings and those of the kinds before it were recorded |
| DriftHistory.WellFormedIff | src/azazel_deception/runtime/isolation_drift.py:80-106 | Which snapshots are accepted, by name and by finding |
| DriftHistory.DriftCountIs | src/azazel_deception/runtime/isolation_drift.py:207-237 | The count is the number of drift records |
| DriftHistory.EdgesAreRisingInOrder | src/azazel_deception/runtime/isolation_drift.py:177-180 | What one look records is each finding absent from the previous snapshot, exactly once, in kind and then finding order |
| DriftHistory.DriftLogIsRisingEdges | src/azazel_deception/runtime/isolation_drift.py:109-128 | Over any looks, restarts and foreign records, the i-th drift record is the i-th rising edge, numbered i + 1 |
| DriftHistory.EventIdsNeverRepeat | src/azazel_deception/runtime/isolation_drift.py:119-122 | Where every append succeeds, no two drift records share an event id, however often the observer is replaced |
| DriftHistory.EventIdsRepeatIff | src/azazel_deception/runtime/isolation_drift.py:153-154 | Over every history of looks, failing appends, restarts and foreign records two drift records share an id if and only if an observer was replaced after spending more numbers than the log holds records and a successor recorded its way to a number in use above that count |
| DriftHistory.FutureIsSafeIff | src/azazel_deception/runtime/isolation_drift.py:119-122 | Whatever an observer looks at and whichever appends fail, it never repeats an id if and only if no number in use is above its own, which after a restart is the count of drift records |
| DriftHistory.BehindComesFromRestart | src/azazel_deception/runtime/isolation_drift.py:153-154 | A number in use above the observer's was left by a restart of an observer that had spent more numbers than it recorded |
| DriftHistory.RepeatingHistory | src/azazel_deception/runtime/isolation_drift.py:187-203 | A failed append, its retry and a restart: the log then holds two records with one id |
| DriftLab.SufficientWaitIsSound | scripts/dev/so08_drift_lab.py:642-679 | In every interleaving of detector and harness, with drifts that fade only after their revert, the first cycle that samples an injected drift records it, and every record read back for it came from a later sample |
| DriftLab.SoundIffWaitsEnough | scripts/dev/so08_drift_lab.py:524-547 | That holds of all reachable states if and only if the wait is at least two cycles and ends with the active set empty |
| DriftLab.NoCycleWaitMisses | scripts/dev/so08_drift_lab.py:456-459 | Without a cycle wait, looking or not, a run misses a drift |
| DriftLab.OneCycleWaitReadsStale | scripts/dev/so08_drift_lab.py:527-533 | With one cycle, whatever else is looked at, a run takes a record of the earlier drift for the next one |
| DriftLab.UncheckedWaitMisses | scripts/dev/so08_drift_lab.py:541-545 | After any number of cycles without the look at the active set, a run misses a drift |
| DriftLab.PollRoundIff | scripts/dev/so08_drift_lab.py:539-546 | When one round of the wait is over, and that it changes nothing else |
| So08Record.EvaluateSamples | src/azazel_deception/runtime/so08_record.py:131-167 | The counts, extremes and verdict of the every-sample rule |
| So08Record.HoldsIffEveryWithin | src/azazel_deception/runtime/so08_record.py:140-144 | The rule holds if and only if there is a sample and every one finished within the bound |
| So08Record.FiguresAreOfTheSamples | src/azazel_deception/runtime/so08_record.py:146-165 | The counts are the numbers of samples that did not finish and that broke the bound, the extremes the largest and smallest elapsed time of those that finished |
| So08Record.TallySamples | src/azazel_deception/runtime/so08_record.py:195-208 | The per-kind counts, and the ids when every entry is a mapping of a declared kind |
| So08Record.CheckSamples | src/azazel_deception/runtime/so08_record.py:192-219 | No problem if and only if every sample is well formed, ids are distinct and, when executed, every kind has 20 |
| So08Record.CheckPart | src/azazel_deception/runtime/so08_record.py:294-325 | No problem with a part if and only if its rule, samples, gaps, evaluation and verdict are what its samples give |
| So08Record.ValidateRecord | src/azazel_deception/runtime/so08_record.py:238-398 | No problem if and only if the record is valid |
| So08Facts.ValidIff | src/azazel_deception/runtime/so08_record.py:238-398 | The valid records spelled out: header, class, both halves with their samples, gaps, figures and verdicts, the Edge gap, the same injections in both, and the overall verdict |
| So08Facts.HalfIff | src/azazel_deception/runtime/so08_record.py:294-325 | A half is in order if and only if its samples are named, distinct and enough, its figures are theirs, and its verdict is the one samples and gaps give |
| So08Facts.OverallTells | src/azazel_deception/runtime/so08_record.py:170-179 | Fail before not measurable before pass; nothing measured is not measurable |
| So08Record.NothingPassesUndeclared | src/azazel_deception/runtime/so08_record.py:18-22 | No valid record passes while Edge's withdrawal path is undeclared |
| So08Record.CountIsDistinctIds | src/azazel_deception/runtime/so08_record.py:209-212 | Copies do not count: with distinct ids the per-kind count is the number of ids |
| So08Record.PassingPartIsMeasured | src/azazel_deception/runtime/so08_record.py:315-325 | A valid passing half is executed, unblocked, every sample within bound and 20 distinct ones of every kind |
| So08Record.ValidPassIsMeasured | src/azazel_deception/runtime/so08_record.py:238-244 | A valid pass is an executed, gated field exercise of a commissioned identity with 20 distinct samples of every kind in both halves, the same ids, every time within bound, every detection naming evidence and every withdrawal an Edge event |
| So08Record.EdgeDetailsHoldIffMapping | src/azazel_deception/runtime/so08_record.py:375-386 | A valid field exercise's Edge details are right whenever they are a mapping, and are not looked at otherwise |
| So08Record.UnreadEdgeIsValid | src/azazel_deception/runtime/so08_record.py:375-386 | For every commissioned identity and commit there is a valid field exercise that says nothing readable of Edge |
| So08Lab.InjectAll | scripts/dev/so08_drift_lab.py:642-679 | Both sample lists hold one sample per injection, in plan order, up to the first that raises or does not clear |
| So08Lab.InjectKind | scripts/dev/so08_drift_lab.py:643-679 | The same for the injections of one kind |
| So08Lab.ExposedEveryTime | scripts/dev/so08_drift_lab.py:690-697 | True if and only if the decoy reached the protected side after every route injection |
| So08Lab.RunLab | scripts/dev/so08_drift_lab.py:590-785 | The record, and the exit status: within bound if and only if the run executed and every injection was detected in time |
| So08Facts.LabVerdictTells | scripts/dev/so08_drift_lab.py:696-722 | A lab record says fail if and only if the run executed and an injection was not detected within two seconds, or there was none; otherwise not measurable |
| So08Facts.ExecutesIff | scripts/dev/so08_drift_lab.py:590-697 | A run counts as executed if and only if the lab came up isolated, every injection was made and cleared, the chain verified and every route injection exposed the protected side |
| So08Lab.SampleIdInjective | scripts/dev/so08_drift_lab.py:644-644 | Sample ids name their injection |
| So08Lab.LabRecordIsValidIff | scripts/dev/so08_drift_lab.py:712-785 | Whatever the lab did, its record never passes, and is valid if and only if the commit is full, the backend is the namespace lab and an executed run had 20 injections of each kind |
| So08Evidence.SamplesHaveTheirOwnEvidence | scripts/dev/so08_drift_lab.py:642-679 | With a sufficient wait every sample was read from a record whose detector sample followed its own injection, and no two samples share a record |
| Json.CollectStrings | src/azazel_deception/overlay.py:265-274 | Exactly the strings that occur in the tree, keys included, are added |
| Overlay.AppliedTo | src/azazel_deception/overlay.py:78-86 | Field by field the smaller of both ceilings, the base's where the profile inherits |
| Overlay.Fits | src/azazel_deception/overlay.py:254-262 | True if and only if no stated minimum exceeds a stated ceiling |
| Overlay.SurvivingTiers | src/azazel_deception/overlay.py:207-217 | The tiers, in order, whose components were all kept and whose minimum still fits |
| Overlay.RenderProfile | src/azazel_deception/overlay.py:130-251 | The rendering or the first refusal, checks in the source's order, the independent check last |
| OverlayFacts.ReduceIff | src/azazel_deception/overlay.py:130-251 | The refusal is that of the first of the renderer's ten checks that fails, each spelled out on base and profile |
| OverlayFacts.RenderIff | src/azazel_deception/overlay.py:130-251 | Which profiles are rendered, exactly |
| OverlayFacts.RenderedHolds | src/azazel_deception/overlay.py:168-251 | What a rendering holds: bound to its base, every required component, the selected ones and no other, ceilings the smaller of both, nothing else changed |
| Overlay.AssertIsReduction | src/azazel_deception/overlay.py:277-402 | Accepts a manifest if and only if it is a reduction in every dimension, its strings drawn from the base |
| OverlayFacts.CheckedIff | src/azazel_deception/overlay.py:277-402 | Of any manifest, whatever made it: accepted if and only if it is a valid package that widens no field of the base, is as selected, and holds no new string |
| OverlayFacts.DumpHolds | src/azazel_deception/overlay.py:265-274 | Every string of a package that a rendering could change is among those the check looks at |
| OverlayReduction.AppliedIsTheMeet | src/azazel_deception/overlay.py:55-57 | What fits under a tightened budget is exactly what fits under both the base and the ceiling |
| OverlayReduction.RenderingsCompose | src/azazel_deception/overlay.py:149-231 | Rendering twice builds what one rendering with the second selection and both ceilings builds, and whatever refuses the single rendering refuses one of the two |
| OverlayReduction.CheckedRenderingsCompose | src/azazel_deception/overlay.py:130-251 | The same with the independent check included |
| OverlayReduction.SelectedDraws | src/azazel_deception/overlay.py:388-402 | Every string of what the renderer selects is in the base, but for the digest and ceiling fields the base did not state |
| OverlayReduction.RenderPassesIff | src/azazel_deception/overlay.py:277-402 | Once the renderer's own checks pass, the independent check accepts if and only if no kept component is privileged or on the host network, ids used more than once agree with their last use, and no ceiling field is a new string |
| OverlayReduction.RepeatedTierRefused | src/azazel_deception/overlay.py:375-383 | Every surviving tier that includes what the last tier of its id does not makes the check refuse |
| OverlayReduction.RepeatedTierExists | src/azazel_deception/overlay.py:375-383 | There is such a package, and a profile that drops nothing from it |
| Persona.WorkingHourSegments | src/azazel_deception/persona/runtime.py:199-223 | The segments are ordered, disjoint, one per day, and cover exactly the window's instants inside working hours |
| Persona.OffsetToInstant | src/azazel_deception/persona/runtime.py:226-237 | An offset below the total lands at its place in the segments laid end to end; the fallback is reached only at or past the total |
| Persona.AtIncreases | src/azazel_deception/persona/runtime.py:226-237 | Offset to instant is strictly increasing |
| Persona.StateTellsSession | src/azazel_deception/persona/runtime.py:253-280 | The machine's state is the session its activities show; logins and logouts alternate, and with `login` declared nothing happens outside a session |
| Persona.Alternation | src/azazel_deception/persona/runtime.py:253-258 | Between two logins there is a logout |
| Persona.AlternatesIff | src/azazel_deception/persona/runtime.py:265-280 | A run alternates if and only if its vocabulary is not login alone with two events or logout alone with one |
| PersonaFacts.StepTells | src/azazel_deception/persona/runtime.py:244-280 | Every step makes the choice its roll names among the activities the session allows, in declared order, and only a login or a logout changes the session |
| PersonaFacts.ChoosableIff | src/azazel_deception/persona/runtime.py:253-280 | Which activities can come next in each state, exactly |
| Persona.DrawOffsets | src/azazel_deception/persona/runtime.py:356-360 | The drawn offsets, each below the total, with their indices |
| Persona.Emit | src/azazel_deception/persona/runtime.py:363-384 | One event per offset, in order, numbered from 1, at its instant, with the machine's activity |
| Persona.Schedule | src/azazel_deception/persona/runtime.py:283-386 | The schedule or the refusal: as many events as the count draw says, offsets in order, each at its instant, numbered, with the machine's activities |
| PersonaSchedule.SchedulesArePlausible | src/azazel_deception/persona/runtime.py:20-26 | At most max_events events, in time order, inside window and working hours, from the vocabulary, alternating but for the two degenerate vocabularies |
| PersonaFacts.ScheduleIsDrawn | src/azazel_deception/persona/runtime.py:349-384 | As many events as the count draw says, at the drawn offsets, each as often as drawn, numbered from one, each activity the choice of its roll in the session shown before it |
| PersonaFacts.InHoursIff | src/azazel_deception/persona/runtime.py:202-223 | An instant of the window is in working hours if and only if its hour of the day is |
| PersonaSchedule.EmptyIffNoWholeSecond | src/azazel_deception/persona/runtime.py:328-334 | A schedule is empty if and only if no segment holds a whole second |
| PersonaSchedule.CutsAreEqual | src/azazel_deception/persona/runtime.py:202-208 | There is one way to cut a window |
| PersonaSchedule.SchedulesAreReplayable | src/azazel_deception/persona/runtime.py:12-14 | The same inputs give the same schedule, event for event |

## Left out

Hypotheses that results rest on:

- DecisionLedger.OneShotAuthority: assumes directory fsync works; `SecondWinPossibleIffNotDurable` says what holds when it may not.
- StateFile.CrashLeavesOldOrNew: assumes directory fsync works (`CrashNeverTears` and `ReturnedWriteSurvivesIff` do not) and one writer at a time; two writers of one environment would share the `.tmp` name.
- EvidenceFile.HistoryIsLogOfReturned: assumes every rollback works and one process; appends of other processes are not serialized by the source either. A crash between an append and its directory fsync is not modelled.
- Lifecycle.LifecycleSafety: assumes calls do not overlap (`OverlappedStopExactly` covers a stop that does; terminations that do are not modelled), state writes succeed, no process death between compose-up and the state write, and, for the container half, no stop through an adapter with live execution off. Project names are modelled for ASCII ids.
- AllClear.NoFalseAllClear: assumes the same, and that no other recorded environment shares the Compose project; `NoFalseAllClearIffProjectsDiffer` says that is what it takes.
- AllClear.NoFalseAllClearIffProjectsDiffer: its failing half assumes helpers that accept the session it shows; `AcceptingReportsEnded` shows there are such.
- BundleAge.NoisyVisitorIsStale: builds its bundle with helpers that accept everything; `StaleForGood` is for any helpers.
- OverlayReduction.RepeatedTierExists: assumes the package schema accepts its example.
- DriftLab.SoundIffWaitsEnough: assumes that after a revert a drift's findings only go away, and that kinds not injected show nothing.
- BoundObserver.BoundObserver.Record: check and append are one step (`LateRecordPossibleIff` separates them); its append is taken to succeed; a failing one is `EvidenceFile.AppendEvidence`. Metadata, lure and reference checks are one flag.
- DriftHistory.DriftLogIsRisingEdges: assumes every append succeeds and one observer at a time; `EventIdsRepeatIff` covers failing appends, whose bytes are taken to be rolled back.
- EffectBinding.BindersAgree: assumes no power loss; `AnotherEffectPossibleIffNotDurable` covers it.
- BundleAge.BuiltIsAcceptedIffKeptIsFresh: assumes the chain's objective digest is that of some objective with the chain's references, as binding makes it.
- OverlayReduction.CheckedRenderingsCompose: assumes that the content digest ignores the digest field and is never the name of a ceiling field.

Not modelled:

- Fabric's models and helpers (package and observation schemas, terrain and effect projection, outcome envelope, cleanliness checks): functions whose answers are arbitrary, in `Feedback.Outside` and `Overlay.Schema`.
- `bind_reference_chain` and `admit_objective`: linear gate checks before a chain exists; a chain is an input.
- Bundles and records that are not even of the declared shape: the source refuses them as malformed. A JSON line that is not a mapping never occurs in a verified log.
- Rounding and overflow of floating-point times: ages and elapsed times are integers, and `round` in a SO-08 record is any function.
- `_untrusted_key` and private-file modes: a key is there or not, and the MAC is a function of environment, session and declarations.
- Timeouts and the clock of the SO-08 harness: a wait may be given up at any step. Lab set-up, network namespaces and procfs sampling are outcomes the lab decides.
- Offsets, rolls and the event count of a schedule: hash outputs, here arbitrary inputs. Timestamp parsing, the time zones of the window and validation of the seed stay outside.
- `shadow_server.py`, `transitions.py`, preflight, policy, live-gate, planner, narrative, honey and credential-lure modules, HTTP, CLI and reports: rule tables, plumbing, or further users of the same ledger.
