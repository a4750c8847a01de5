# Verified model of the toolu runner

A Dafny model of six parts of the runner in which a mistake is silent: the compute daemon's scheduler,
secret masking, the derived RSA parameters, the supervisor units it installs and reads back, the
expression language, and the listener's event and retry machinery. `dafny verify dfyconfig.toml` checks
all of it.

Code that changes state is modelled by classes and loops, each proved equal to a function of the old
state; the theorems are then about those functions.

| part | modules |
|---|---|
| scheduler | `Gate`, `Scheduler`, `Promotion`, `Adoption`, `AdoptionOutcome`, `DaemonRuns`, `ArrivalOrder`, `Agreement`, `Daemon` |
| RSA parameters | `NumberTheory`, `CrtParams` |
| masking and logging | `SecretMasker`, `PatternRegistry`, `MaskSurvival`, `Lines`, `RedactingWriter`, `LogRedaction`, `JsonForm` |
| supervisor units | `Targets`, `SystemdUnit`, `SystemdText`, `XmlText`, `LaunchdPlist`, `PlistFields`, `EnvPath` |
| expressions | `Syntax`, `Lexer`, `Printer`, `PrintedTokens`, `Grammar`, `Parser`, `Reparse`, `Precedence`, `Lexemes`, `Template`, `Values`, `Functions`, `Evaluator`, `Meaning`, `CallMeaning`, `Expressions`, `NumberLayout` |
| listener | `SetupForwarding`, `StepReports`, `Retry` |

`Text` holds sequences and the Rust string operations the code uses.

## Where the code differs from what it says

- `crates/daemon/src/docker.rs:285-290` says nothing is released off an empty snapshot. It reads a failed
  listing as an empty snapshot, and an empty snapshot releases every running job
  (`Scheduler.EmptySnapshotReleasesEverythingRunning`).
- `requeue_after_failed_start` and `handlers::release` go through their locks one after the other, so other sections can
  come between. A run keeps gate, queue and container map in agreement exactly when each of these holds of its steps
  (`Agreement.StepAgreesIff`, `Agreement.RunsAgreeIff`): an id is admitted with a recorded container only if it also has
  a queue place, and the other way round; a container is recorded for a tracked job that has none; a release leaves the
  queue only for a job that is not tracked and queued again, and not as the last one before that job's own push-back; a
  release leaves the container map only for a job that is not tracked and recorded again; a start that fails is one of a
  job gone or still running. Operations on one id that keep out of each other's way meet this
  (`Agreement.SafeRunsAgree`); they need not, to agree.
  Outside it: a reposted job is queued without a container (`DaemonRuns.RepostDuringStartBreaksCoherence`) or tracked
  and not started by any number of ticks, until one lists an expired container of it
  (`DaemonRuns.RepostDuringReleaseStrandsTheJob`), and an untracked queue entry stays until such a tick
  (`DaemonRuns.ReleaseBetweenSectionsLeaks`).
- `crates/daemon/src/reaper.rs:28-31` says the job waiting longest starts first once budget frees. It starts first if it
  fits; else a later job that fits starts ahead of it (`Promotion.TickStartsIffRoom`, `Promotion.SmallerStartsFirst`),
  though none passes it in the queue (`ArrivalOrder.NeverOvertaken`).
- A restart loses a waiting job, in some listing order, exactly when more jobs are tracked than the queue ceiling
  admits (`Adoption.RestartTransparentIff`), as they can be after adoption (`Adoption.AdoptionCanPassTheCeiling`).
- A reduced CRT exponent of zero computes the wrong power of a multiple of that prime
  (`CrtParams.ExponentAgreesIff`); a real private exponent never reduces to zero
  (`CrtParams.CrtDecryptsEveryMessage`).
- A registered pattern can survive masking, through the mask itself, exactly when it starts or ends in `*` or contains
  `***` (`MaskSurvival.NeverSurvivesIff`, and `MaskSurvival.NeverSurvivesFallbackIff` for the fallback).
- The log writer masks line by line, so a secret of several lines can be registered and still be written out whole, as
  `ab` and `cd` on two lines are (`LogRedaction.ShortLinesShow`). One that the mask cannot complete never shows exactly
  when it has no newline, or a trimmed line of at least four bytes, or one of its encodings occurs on a line of it
  (`LogRedaction.SecretNeverInLogIff`). Workflow masks have no such gap (`LogRedaction.MaskNeverInLog`).
- A pinned home with two adjacent `$` reads back changed from a systemd unit
  (`SystemdText.HomeRoundTripIff`).
- An access printed after a literal does not parse, and one printed after a negation moves inside it
  (`Reparse.PrintParseRoundTripIff`).
- `jittered_backoff` is documented to return a value in `[backoff/2, backoff)`; it does so exactly for
  nonzero whole multiples of two milliseconds up to 2 * `u64::MAX` milliseconds (`Retry.JitterRangeIff`), as all
  backoffs in use are.

## Model

| member | source | states |
|---|---|---|
| Gate.SaturatingFoldIsClampedSum | crates/daemon/src/gate.rs:324-330 | in every iteration order of the job map, the saturating fold is the clamped true sum of the running jobs |
| Gate.FitsNowIsTrueRoom | crates/daemon/src/gate.rs:56-66 | the saturating comparison with what is left says exactly whether the unsaturated sums leave room, in both dimensions |
| Gate.Gate.Admit | crates/daemon/src/gate.rs:176-197 | admits exactly a new id whose size fits the whole budget below the queue ceiling; duplicate, oversize and full in that order; otherwise unchanged |
| Gate.Gate.AdoptRunning | crates/daemon/src/gate.rs:218-230 | records an untracked job as running whatever the budget, refuses a duplicate |
| Gate.Gate.Used | crates/daemon/src/gate.rs:324-330 | the clamped true use of the running jobs |
| Gate.Gate.TryStart | crates/daemon/src/gate.rs:239-254 | starts exactly a tracked job that is running or fits what is left; changes only its running flag |
| Gate.Gate.Unstart | crates/daemon/src/gate.rs:269-277 | clears the flag of a tracked job and says whether it is tracked |
| Gate.Gate.Release | crates/daemon/src/gate.rs:295-297 | drops the job and nothing else, and returns the footprint it held, if it was tracked |
| Gate.Gate.RunningJobIds | crates/daemon/src/gate.rs:303-310 | exactly the tracked running jobs |
| Gate.Gate.Consume | crates/daemon/src/gate.rs:313-321 | clamped true use in both dimensions and the number of tracked jobs |
| Scheduler.RememberCreatedKeepsCoherentIff | crates/daemon/src/routes/handlers.rs:271-292 | recording a created container keeps the state coherent exactly when the job has none recorded |
| Scheduler.RequeueKeepsCoherentIff | crates/daemon/src/docker.rs:439-449 | undoing a failed start, with nothing between its two locked sections, keeps the state coherent exactly when the job is gone or still marked running |
| Scheduler.PushAfterReleaseIff | crates/daemon/src/docker.rs:439-449 | with releases between the two sections it keeps the state coherent exactly when the job itself is not among those released |
| Scheduler.PromotionIsFairAndMaximal | crates/daemon/src/reaper.rs:168-178 | started and remaining jobs are both in arrival order and together the queue; no tracked job left fits what remains |
| Scheduler.IdleBoxStartsTheHead | crates/daemon/src/reaper.rs:168-178 | with nothing running, the longest waiting job starts |
| Scheduler.ReconcileStartsThePromoted | crates/daemon/src/reaper.rs:260-271 | every promoted job gets exactly one start request, with its recorded container, in promotion order |
| Scheduler.ReconcileKeepsCoherent | crates/daemon/src/reaper.rs:223-272 | a tick keeps queue, job map and container map coherent, whatever the snapshot, also but for releases under way |
| Scheduler.ReconcileMeaning | crates/daemon/src/reaper.rs:223-272 | after a tick a job runs iff it ran and all its listed containers run in time, or the tick starts it; it is let go iff a listed container of it expired or it ran and no longer does; the queue keeps exactly the unexpired ones not started; containers stay as recorded |
| Promotion.TickStartsIffRoom | crates/daemon/src/reaper.rs:168-178 | a tick starts a waiting unexpired job iff the true sums leave room for it on top of what still runs and what the tick starts ahead of it in the queue |
| Promotion.SmallerStartsFirst | crates/daemon/src/reaper.rs:168-178 | a job that fits starts ahead of one that has waited longer and does not |
| Promotion.TickLeavesNoRoom | crates/daemon/src/reaper.rs:168-178 | after a tick no waiting tracked job fits the true room left |
| Promotion.IdleTickStartsTheHead | crates/daemon/src/reaper.rs:223-272 | with nothing running any more, the first unexpired job of the queue is the first started, in its recorded container |
| Promotion.TickRemoves | crates/daemon/src/reaper.rs:231-248 | each listed container is removed or not on its own, in order: if past its deadline, or stopped while its job was running |
| Scheduler.OneContainerSurvival | crates/daemon/src/reaper.rs:231-258 | with one container per job, surviving a tick is being listed running and unexpired |
| Scheduler.LeakedThroughTicks | crates/daemon/src/reaper.rs:223-272 | over any number of ticks and from any state, a queue entry of an untracked job stays exactly until a listed container of that job has expired |
| Scheduler.StrandedThroughTicks | crates/daemon/src/reaper.rs:223-272 | over any number of ticks and from any state, a tracked job neither running nor queued stays so exactly until a listed container of that job has expired, and is then let go |
| Scheduler.EmptySnapshotReleasesEverythingRunning | crates/daemon/src/docker.rs:285-306 | an empty snapshot releases exactly the running jobs, so nothing iff none runs, and removes no container |
| Adoption.AdoptKeepsCoherent | crates/daemon/src/adopt.rs:151-230 | whatever Docker lists, adoption leaves a coherent, startable state over the listed jobs |
| Adoption.RestartIsTransparent | crates/daemon/src/adopt.rs:130-230 | adopting the containers of a coherent state within its ceiling, listed in any order, rebuilds jobs, containers, use and waiting set, and removes nothing |
| Adoption.RestartTransparentIff | crates/daemon/src/adopt.rs:206-230 | a restart is invisible in every listing order iff the jobs are within the ceiling or none waits |
| Adoption.RestartOverCeilingLosesTheLast | crates/daemon/src/adopt.rs:206-230 | past the ceiling, a waiting job listed last is lost |
| Adoption.AdoptionCanPassTheCeiling | crates/daemon/src/adopt.rs:151-230 | a waiting container and a running one, adopted in that order under a ceiling of one, leave two tracked jobs, one waiting |
| AdoptionOutcome.EveryContainerIsDecided | crates/daemon/src/adopt.rs:125-230 | every listed container is taken in, and then its job is tracked with its size, state, container and deadline, or is removed; a finished or expired one is always removed, a running one in time is taken in unless its job is tracked |
| AdoptionOutcome.TrackedIffTaken | crates/daemon/src/adopt.rs:151-230 | a job is tracked iff one of its containers is taken in, and runs iff that one does |
| AdoptionOutcome.AdoptionIsRecorded | crates/daemon/src/adopt.rs:151-230 | the running jobs are exactly those reported resumed, and the queue is exactly those reported requeued, in that order |
| AdoptionOutcome.EveryContainerIsAccountedFor | crates/daemon/src/adopt.rs:151-230 | from any state, resumed, requeued and removed together are the listing, each in listing order |
| DaemonRuns.BudgetIsSafe | crates/daemon/src/gate.rs:176-330 | over every run after adoption, true use never exceeds the larger of budget and adopted use, nor tracked jobs the larger of ceiling and adopted count |
| DaemonRuns.AnswerMeaning | crates/daemon/src/docker.rs:360-449 | a started job is left alone; one that failed for now is tracked as not running and waits behind all others; one whose container is gone leaves no trace; other jobs keep what they have |
| ArrivalOrder.NeverOvertaken | crates/daemon/src/reaper.rs:33-53 | over every run, a job that waits from before another arrives stays ahead of it in the queue for as long as it waits |
| DaemonRuns.StepKeepsInv | crates/daemon/src/docker.rs:319-449 | when no id is admitted again while a start or a release of it is under way, nor a second container recorded, nor a last release leaves the queue before that job's push-back, every locked section keeps the full invariant, pending starts included |
| DaemonRuns.AtRestIsCoherent | crates/daemon/src/docker.rs:319-449 | with nothing under way, that agreement is coherence |
| DaemonRuns.RepostDuringStartBreaksCoherence | crates/daemon/src/docker.rs:439-449 | release, repost and a transient start failure leave a tracked job queued without a container |
| DaemonRuns.RepostDuringReleaseStrandsTheJob | crates/daemon/src/routes/handlers.rs:310-327 | an id admitted and created again before its old release has finished ends up tracked, without container or queue place, and stays so over any number of later ticks exactly until one lists an expired container of it |
| DaemonRuns.ReleaseBetweenSectionsLeaks | crates/daemon/src/docker.rs:439-449 | a release between the two sections of a requeue leaves an untracked queue entry, drained over any number of later ticks exactly by an expired container of that job |
| Agreement.AgreesAtRest | crates/daemon/src/docker.rs:319-449 | with nothing under way but unanswered starts, agreement is exactly coherence |
| Agreement.AdoptedAgrees | crates/daemon/src/adopt.rs:151-230 | whatever Docker lists, a daemon starts in agreement |
| Agreement.StepAgreesIff | crates/daemon/src/docker.rs:319-449 | each locked section the code can run next keeps gate, queue and container map in agreement exactly when the guard of the branch that would break it holds; ticks, gate releases and push-backs always do |
| Agreement.RunsAgreeIff | crates/daemon/src/routes/handlers.rs:271-327 | a run in the code's own order that starts in agreement stays in it all along exactly when the guard of every step holds |
| Agreement.SafeRunsAgree | crates/daemon/src/routes/handlers.rs:271-327 | after any adoption, runs whose operations on one id keep out of each other's way agree all along |
| Daemon.PromoteQueue | crates/daemon/src/reaper.rs:168-178 | the promotion loop starts exactly the jobs of the specification and removes them from the queue |
| Daemon.ReleaseJob | crates/daemon/src/reaper.rs:190-202 | gate, queue, container map and registry all forget the job; the freed footprint is returned |
| Daemon.ReleaseRequest | crates/daemon/src/routes/handlers.rs:310-327 | the three sections of a requested release, uninterrupted, are the three steps of the run |
| Daemon.ReleaseEnded | crates/daemon/src/reaper.rs:231-248 | the first pass drops exactly the jobs of ended containers from scheduler and registry and removes those containers in order |
| Daemon.RunTick | crates/daemon/src/reaper.rs:223-272 | the in-place tick computes the declarative one, and the registry forgets exactly the jobs let go |
| Daemon.RequeueAfterFailedStart | crates/daemon/src/docker.rs:439-449 | a tracked job is unstarted and goes to the back of the queue; an untracked one is left alone |
| Daemon.StartPromoted | crates/daemon/src/docker.rs:360-415 | the loop over start requests keeps, requeues or releases each job as Docker answered, in order |
| Daemon.AnswersAreARun | crates/daemon/src/docker.rs:360-449 | that is the run of the answers, each transient failure followed by its push-back |
| Daemon.AdoptAll | crates/daemon/src/adopt.rs:151-230 | the adoption loop computes the specification: state, resumed, requeued and removed lists |
| NumberTheory.FermatLittle | crates/protocol/src/auth.rs:196-197 | Fermat's little theorem, which makes the modular power an inverse |
| NumberTheory.ReduceExponent | crates/protocol/src/auth.rs:193-194 | for a prime p not dividing m, exponents may be reduced modulo p-1 |
| CrtParams.ParamsReadBack | crates/protocol/src/auth.rs:160-204 | refused exactly for p < 2, then q < 2, then d = 0, each with its own error; otherwise the byte strings decode to the parameters |
| CrtParams.CoefficientInvertsIff | crates/protocol/src/auth.rs:196-197 | the coefficient times q is 1 modulo the prime p exactly when p does not divide q |
| CrtParams.ExponentAgreesIff | crates/protocol/src/auth.rs:193-194 | the reduced exponent gives the same power modulo p exactly when p does not divide the base or it is not zero |
| CrtParams.CrtPowerIsPowerIff | crates/protocol/src/auth.rs:160-204 | for distinct primes, section 5.1.2 of RFC 8017 with these parameters gives c^d mod pq exactly under that condition for both primes |
| CrtParams.CrtDecryptsEveryMessage | crates/protocol/src/auth.rs:160-204 | for distinct odd primes and inverse exponents, the CRT steps undo the public operation on every message |
| SecretMasker.Merge | crates/shared/src/secret_masker.rs:267-280 | sorted matches merge into separated spans covering the same positions |
| SecretMasker.WriteMasked | crates/shared/src/secret_masker.rs:282-304 | the output pass shows uncovered positions and one mask per run of covered ones |
| SecretMasker.MaskWithAutomaton | crates/shared/src/secret_masker.rs:259-304 | whatever order the matches come in, the result is the per-position definition |
| SecretMasker.NoPatternSurvives | crates/shared/src/secret_masker.rs:141-149 | no pattern that neither starts nor ends in a star nor contains the mask occurs in text masked by the automaton |
| SecretMasker.MaskedIsIdempotent | crates/shared/src/secret_masker.rs:141-149 | masking text masked with such patterns changes nothing |
| SecretMasker.MaskWithReplaceLoop | crates/shared/src/secret_masker.rs:153-159 | the fallback applies every pattern in order |
| SecretMasker.NoPatternSurvivesFallback | crates/shared/src/secret_masker.rs:153-159 | no such pattern occurs in the fallback's output, in any order of patterns |
| SecretMasker.FallbackIsIdempotent | crates/shared/src/secret_masker.rs:153-159 | the same of the fallback |
| MaskSurvival.NeverSurvivesIff | crates/shared/src/secret_masker.rs:259-304 | a registered pattern survives masking for no text and no other patterns exactly when it neither starts nor ends in a star nor contains the mask |
| MaskSurvival.NeverSurvivesFallbackIff | crates/shared/src/secret_masker.rs:153-159 | the same condition decides for the fallback over longest-first pattern lists |
| PatternRegistry.PartitionPoint | crates/shared/src/secret_masker.rs:221-231 | the insertion point after all patterns at least as long |
| PatternRegistry.Registry.InsertPattern | crates/shared/src/secret_masker.rs:221-231 | patterns stay distinct, nonempty and longest first; exactly the new one is added |
| PatternRegistry.Registry.AddPattern | crates/shared/src/secret_masker.rs:180-217 | the value, its JSON form and its long enough encodings are registered |
| PatternRegistry.Registry.AddSecret | crates/shared/src/secret_masker.rs:75-78 | exactly the patterns of the trimmed value and its trimmed lines, each if long enough |
| PatternRegistry.Registry.AddMask | crates/shared/src/secret_masker.rs:86-97 | exactly the patterns of the value as given and its nonempty trimmed lines |
| PatternRegistry.SecretPatternsIff | crates/shared/src/secret_masker.rs:116-130 | exactly what a secret registers: the raw, JSON and long enough encoded forms of the trimmed value, and of each trimmed line of it, of at least four bytes |
| PatternRegistry.MaskPatternsIff | crates/shared/src/secret_masker.rs:86-97 | exactly what a workflow mask registers: those forms of the exact value and of each nonblank line |
| PatternRegistry.RegisteredSecretNeverShows | crates/shared/src/secret_masker.rs:75-78 | no such form of a registered secret or of a line of it, that the mask cannot complete, appears in masked text, whatever else is registered |
| PatternRegistry.RegisteredMaskNeverShows | crates/shared/src/secret_masker.rs:86-97 | the same of a workflow mask |
| JsonForm.JsonFormReadsBack | crates/shared/src/secret_masker.rs:183-190 | between quotes the JSON form reads back as the value, whatever follows the closing quote |
| JsonForm.JsonFormIsOneLine | crates/shared/src/secret_masker.rs:183-190 | it holds no newline, return or tab |
| JsonForm.JsonFormIsStarSafe | crates/shared/src/secret_masker.rs:183-190 | if the mask cannot complete a value, it cannot complete its JSON form |
| JsonForm.JsonFormNeverShows | crates/shared/src/secret_masker.rs:180-217 | nor does the JSON form of a registered secret appear in masked text |
| JsonForm.JsonFormNeverInLog | crates/shared/src/secret_masker.rs:180-217 | nor in the log, even where the secret itself, having several short lines, can |
| RedactingWriter.Writer.DrainCompleteLines | crates/shared/src/startup.rs:322-330 | every complete line is redacted and written, the tail stays buffered |
| RedactingWriter.Writer.Write | crates/shared/src/startup.rs:280-284 | buffered and new bytes are cut at newlines: lines redacted out, tail kept, all bytes accepted |
| RedactingWriter.Writer.Flush | crates/shared/src/startup.rs:286-295 | also the unfinished tail is redacted and written |
| Lines.CutAppend | crates/shared/src/startup.rs:322-330 | cutting a stream at newlines can resume from its tail at any byte |
| Lines.CutIsTheStream | crates/shared/src/startup.rs:322-330 | the lines and the tail put together are the stream: cutting loses nothing |
| RedactingWriter.WriteAllAndFlush | crates/shared/src/startup.rs:279-331 | however a byte stream is split into writes, after one flush the output is each line redacted, then the tail |
| LogRedaction.RedactedLinesAreMasked | crates/shared/src/startup.rs:322-330 | for any decoding that keeps lines lines, redacting the lines of a byte stream writes the UTF-8 of its text with every line masked |
| LogRedaction.TextOfUtf8 | crates/shared/src/startup.rs:322-330 | the lines of UTF-8 text are the UTF-8 of its lines, so that a decoding that undoes UTF-8 gives the text back |
| LogRedaction.WriteMaskedLog | crates/shared/src/startup.rs:279-331 | however the bytes reach the writer, after a flush it has written the UTF-8 of the log masked line by line |
| LogRedaction.LogByPosition | crates/shared/src/startup.rs:322-330 | that log position by position: hidden is exactly what a pattern occurring on one line covers, with a new mask on every line |
| LogRedaction.NeverInLogIff | crates/shared/src/secret_masker.rs:37-58 | a text the mask cannot complete shows in no log, whatever else is registered, exactly when a registered pattern occurs on one line of it |
| LogRedaction.SecretNeverInLogIff | crates/shared/src/secret_masker.rs:116-130 | so a secret never shows exactly when it is long enough and has no newline, a long enough line, or an encoding on one of its lines |
| LogRedaction.LinesDecide | crates/shared/src/secret_masker.rs:116-130 | with encodings longer than the value, a registered secret of several lines never shows exactly when one trimmed line is long enough |
| LogRedaction.MaskNeverInLog | crates/shared/src/secret_masker.rs:86-97 | a workflow mask never shows, however many lines it has and however short they are |
| LogRedaction.ShortLinesShow | crates/shared/src/secret_masker.rs:116-130 | two lines of two bytes are registered as a secret and still shown |
| Targets.TargetOfConfigArgs | crates/config/src/service_unit.rs:449-467 | the rendered command line names its own configuration |
| Targets.TargetOfAllArgs | crates/config/src/service_unit.rs:449-467 | the machine command line names everything |
| Targets.TargetMeaning | crates/config/src/service_unit.rs:449-467 | any command line: everything if `--all` stands after the first `run`, else what the first of the two configuration options names, else nothing |
| Text.ReplaceCharIsReplace | crates/config/src/service_unit.rs:549-558 | replacing a one-character pattern maps each character on its own |
| SystemdUnit.QuoteEscapedIsOnePass | crates/config/src/service_unit.rs:549-558 | the chained replacements of the quoter map each character on its own |
| SystemdUnit.SystemdWords | crates/config/src/service_unit.rs:472-511 | the splitter's loop computes the word list of its state machine |
| SystemdUnit.QuotedWord | crates/config/src/service_unit.rs:472-511 | a quoted field reads back as one word, for every string |
| SystemdUnit.WordsOfExecConfig | crates/config/src/service_unit.rs:288-331 | the rendered command line splits into its four arguments |
| SystemdUnit.WordsOfAssignment | crates/config/src/service_unit.rs:387-394 | an environment assignment reads back with doubled dollars collapsed |
| SystemdUnit.CollapsedIffNoDoubleDollar | crates/config/src/service_unit.rs:472-511 | collapsing changes a value exactly when it has two adjacent dollars |
| SystemdText.LinesReadBack | crates/config/src/service_unit.rs:405-410 | a unit of newline-free lines reads back line by line |
| SystemdText.UnitTargetRoundTrip | crates/config/src/service_unit.rs:288-331 | parsing any rendered unit gives back its configuration path |
| SystemdText.MachineTargetRoundTrip | crates/config/src/service_unit.rs:351-382 | parsing any machine unit gives back everything |
| SystemdText.UnitVariableAsRead | crates/config/src/service_unit.rs:288-331 | every variable a unit sets, `PATH`, `HOME` and the runner home, reads back with adjacent dollars collapsed, and no other is set |
| SystemdText.MachineVariableAsRead | crates/config/src/service_unit.rs:351-382 | the same of machine units |
| SystemdText.UnitHomeAsRead | crates/config/src/service_unit.rs:430-436 | what home is read from any rendered unit |
| SystemdText.HomeRoundTripIff | crates/config/src/service_unit.rs:387-436 | the pinned home reads back as itself iff it has no two adjacent dollars |
| SystemdText.MachineHomeRoundTripIff | crates/config/src/service_unit.rs:351-436 | the same for machine units |
| XmlText.XmlEscape | crates/config/src/service_unit.rs:524-537 | the escaping loop maps each character on its own |
| XmlText.UnescapeUndoesEscape | crates/config/src/service_unit.rs:514-537 | the five chained replacements undo the one-pass escape, for every string |
| XmlText.SplitPastTag | crates/config/src/service_unit.rs:415-426 | searching for a tag passes over text, other tags and keys |
| XmlText.SplitPastKey | crates/config/src/service_unit.rs:440-445 | searching for a key passes over text, tags and other keys |
| LaunchdPlist.PushProgramArguments | crates/config/src/service_unit.rs:238-247 | the pushing loop writes the array of all arguments |
| LaunchdPlist.PushEnvironment | crates/config/src/service_unit.rs:252-259 | the pushing loop writes the dictionary of all variables |
| LaunchdPlist.TargetIsFound | crates/config/src/service_unit.rs:415-426 | whatever surrounds them, the arguments are read back one by one and unescaped |
| LaunchdPlist.LaunchdTargetRoundTrip | crates/config/src/service_unit.rs:153-168 | parsing any rendered plist gives back its configuration path |
| LaunchdPlist.LaunchdMachineTargetRoundTrip | crates/config/src/service_unit.rs:173-186 | parsing any machine plist gives back everything |
| LaunchdPlist.LaunchdMachineHomeRoundTrip | crates/config/src/service_unit.rs:440-445 | the pinned home reads back as itself, and as nothing when none is pinned |
| LaunchdPlist.LaunchdServiceHasNoHome | crates/config/src/service_unit.rs:440-445 | a registration plist pins no home, whatever its fields hold |
| PlistFields.ServiceFieldsReadBack | crates/config/src/service_unit.rs:153-168 | label, working directory, `PATH` and both log files of a registration plist read back under their keys, for every string |
| PlistFields.MachineFieldsReadBack | crates/config/src/service_unit.rs:173-186 | the same of the machine plist |
| EnvPath.LaunchdEnvPath | crates/config/src/service_unit.rs:134-146 | the loop collects and joins the specified entries |
| EnvPath.CollectedIsFirstOccurrences | crates/config/src/service_unit.rs:140-144 | the first occurrence of each nonempty entry, in order, and nothing else |
| EnvPath.ShellEntriesComeFirst | crates/config/src/service_unit.rs:134-146 | the installing shell's nonempty entries come first, each once, in order; the guaranteed directories fill in exactly what is missing |
| EnvPath.LaunchdEnvPathIsIdempotent | crates/config/src/service_unit.rs:134-146 | applied to its own output it is a no-op, and the guaranteed directories are always there |
| Lexer.LexString | crates/expressions/src/lexer.rs:178-208 | the quoted text with doubled quotes undone and where it ends, or unterminated |
| Lexer.LexNumber | crates/expressions/src/lexer.rs:210-226 | the longest run up to a delimiter is handed to the number parser |
| Lexer.LexIdent | crates/expressions/src/lexer.rs:228-240 | the longest name |
| Lexer.NextToken | crates/expressions/src/lexer.rs:61-172 | the specified token at a position, depending on the token before it, or the error |
| Lexer.Lex | crates/expressions/src/lexer.rs:61-97 | the lexing loop gives the specified tokens or the first error |
| Printer.PrintOntoIsPrint | crates/expressions/src/display.rs:88-122 | printing in front of a suffix is the printed text and then the suffix |
| PrintedTokens.PrintedTextLexes | crates/expressions/src/display.rs:88-154 | for every tree with legal names and no number, array or object literals, the printed text lexes to exactly the tree's tokens |
| Parser.Parser.ParseLevel | crates/expressions/src/parser/precedence.rs:10-65 | each precedence level's loop returns and consumes what the grammar says |
| Parser.Parser.ParsePostfix | crates/expressions/src/parser/precedence.rs:83-123 | a primary and its accesses, refusing an access on a literal |
| Parser.Parser.ParsePrimary | crates/expressions/src/parser/primary.rs:10-42 | literals, groups, calls and contexts |
| Parser.Parser.ParseArgs | crates/expressions/src/parser/primary.rs:56-68 | the argument list |
| Parser.ParseAll | crates/expressions/src/parser/parse.rs:12-23 | the whole token list must be used up |
| Reparse.PrintedTextParses | crates/expressions/src/parser/parse.rs:12-23 | for every printable tree, printing, lexing and parsing gives exactly the described tree, or the one error |
| Reparse.PrintParseRoundTripIff | crates/expressions/src/display.rs:88-122 | the tree comes back, up to names written as indexes, iff no access stands on a literal or a negation |
| Reparse.PrintedTextIsStable | crates/expressions/src/display.rs:88-122 | whatever tree the printed text parses to prints as the same text |
| Precedence.NeatParses | crates/expressions/src/parser/precedence.rs:10-123 | every tree without array and object literals, written with only the parentheses it needs, parses back to itself |
| Precedence.TwoOperators | crates/expressions/src/parser/precedence.rs:10-65 | of `a p b q c`, `b` goes to `q` exactly when `q` binds tighter; or is loosest, then and, equality, comparison; equals go to the left |
| Lexemes.TokensReadBack | crates/expressions/src/lexer.rs:61-240 | any list of tokens that can stand in that order, written with any whitespace between them, lexes back to itself |
| Lexemes.NeatTextParses | crates/expressions/src/parser/parse.rs:12-23 | so every such tree with legal names and writable numbers is denoted by a text |
| Template.ExpressionEnd | crates/expressions/src/template.rs:34-49 | the scanning loop finds the first `}}` outside single quotes |
| Template.EndIsAfterThePrintedText | crates/expressions/src/template.rs:34-49 | wrapped in `${{ }}` before any suffix, the end is found exactly after the printed text |
| Template.Interpolate | crates/expressions/src/template.rs:15-31 | the loop computes the specified interpolation or its first failure |
| Template.InterpolationFillsTheHoles | crates/expressions/src/template.rs:15-49 | a template written from texts and trees is filled exactly in its holes, left to right |
| Template.InterpolationMeaning | crates/expressions/src/template.rs:15-31 | when every hole has a value the result is texts and values in turn, else the first failure from the left |
| Values.ProjectFiltered | crates/expressions/src/access.rs:11-22 | indexing a wildcard result projects over its members, in order |
| Values.ProjectionIsPointwise | crates/expressions/src/access.rs:7-65 | each item of a wildcard result contributes, in order and whatever the others are, what the index finds in it, or its members |
| Functions.Segments | crates/expressions/src/functions/format.rs:48-106 | every placeholder of a parsed format text is in range; each failure is one of four |
| Functions.SegmentsReadBack | crates/expressions/src/functions/format.rs:48-106 | a format text written from texts and argument indexes parses back to exactly those, braces included |
| Functions.Render | crates/expressions/src/functions/format.rs:15-46 | rendering with the cache is rendering without it; every referenced argument is asked for, and none twice |
| Functions.UnusedSecondIsUnused | crates/expressions/src/evaluator.rs:92-101 | when the second argument is skipped, no value of it would change the call's result |
| Evaluator.CollectArgs | crates/expressions/src/evaluator.rs:73-84 | the argument loop: values in order, an unused second one as null, the first failure reported |
| Evaluator.RunCase | crates/expressions/src/evaluator.rs:114-151 | the pair loop of `case` |
| Evaluator.EvalCaseRefines | crates/expressions/src/evaluator.rs:114-151 | lazy `case` agrees with `case` on evaluated arguments |
| Evaluator.EvalFormatRefines | crates/expressions/src/evaluator.rs:153-169 | lazy `format` agrees with `format` on evaluated arguments |
| Evaluator.LazyRefinesStrict | crates/expressions/src/evaluator.rs:43-214 | for every expression, whenever evaluating every subexpression succeeds, the lazy evaluator returns the same value |
| Evaluator.ValidatedIff | crates/expressions/src/validation.rs:8-66 | validation accepts exactly the trees all of whose nodes name known contexts and call known functions with a fitting argument count |
| Evaluator.ValidatedContextsResolve | crates/expressions/src/evaluator.rs:104-112 | after validation every context reference evaluates to the entry found for it: the null fallback is never taken |
| Evaluator.ValidatedNeverTrips | crates/expressions/src/evaluator.rs:37-151 | after validation, evaluation reports no unknown function and no wrong argument count |
| Meaning.CoercionTable | crates/expressions/src/types.rs:58-85 | every value as a number and as text |
| Meaning.ComparisonMeaning | crates/expressions/src/evaluator.rs:216-248 | each of the six comparisons on any two values: texts by their upper-cased units, lexicographically; collections by identity; everything else by number, in the order of the extended reals |
| Meaning.Trichotomy | crates/expressions/src/types.rs:91-106 | two texts, or two numbers other than NaN, are in exactly one of the three relations; NaN is in none |
| Meaning.LogicMeaning | crates/expressions/src/evaluator.rs:171-214 | negation and the two short-circuit operators by the five falsy values; the right side may fail unseen |
| Meaning.LeftFailure | crates/expressions/src/evaluator.rs:43-214 | a failing left operand or base is reported |
| Meaning.RightFailure | crates/expressions/src/evaluator.rs:43-214 | then a failing right operand of a comparison, or a failing index |
| Meaning.IndexMeaning | crates/expressions/src/access.rs:32-57 | an index gives the array item at its whole part, the first entry of that name, or null; on a primitive it is not evaluated |
| Meaning.PropertyMeaning | crates/expressions/src/access.rs:32-57 | a property is an index by its name |
| Meaning.WildcardMeaning | crates/expressions/src/access.rs:59-65 | a wildcard gives all members in order, in a filtered array |
| Meaning.ThroughWildcard | crates/expressions/src/access.rs:7-24 | through a filtered array each item gives what the index finds in it, or nothing |
| Meaning.ContextMeaning | crates/expressions/src/evaluator.rs:104-112 | a context is the first of that name in any ASCII case, or null |
| CallMeaning.AffixMeaning | crates/expressions/src/functions/builtins.rs:94-112 | startsWith and endsWith hold iff the first text is the second followed, or preceded, by something, in any case; never on collections |
| CallMeaning.ContainsMeaning | crates/expressions/src/functions/builtins.rs:73-92 | contains holds iff the text has the other inside, or an item is loosely equal |
| CallMeaning.StatusMeaning | crates/expressions/src/functions/builtins.rs:15-38 | the four status functions |
| CallMeaning.JoinMeaning | crates/expressions/src/functions/builtins.rs:150-175 | join puts the separator, or a comma, between the items' texts |
| CallMeaning.CaseMeaning | crates/expressions/src/evaluator.rs:114-151 | case gives the result after the first true condition, the last argument if all are false, and ends at a condition that fails or is no boolean |
| CallMeaning.FormatCall | crates/expressions/src/evaluator.rs:153-169 | format fills each placeholder with its argument's text, braces undoubled |
| CallMeaning.RefusedFormats | crates/expressions/src/functions/format.rs:48-106 | which of the four errors a bad brace, a missing index, an index out of range and an unclosed placeholder give, after any well-formed part |
| CallMeaning.ArgumentFailure | crates/expressions/src/evaluator.rs:73-84 | the first failing argument is reported |
| CallMeaning.SecondIsNotEvaluated | crates/expressions/src/evaluator.rs:92-101 | when the first argument settles the call, the second is not evaluated, whatever it is |
| CallMeaning.ArityMeaning | crates/expressions/src/validation.rs:45-66 | how many arguments each known name takes |
| Expressions.NormalizedEval | crates/expressions/src/access.rs:7-57 | a legal name as index or as property makes no difference to the value |
| Expressions.PrintedTextEvaluates | crates/expressions/src/evaluator.rs:37-41 | evaluating the printed text is validating and evaluating the tree |
| Expressions.InterpolationEvaluatesTheTrees | crates/expressions/src/template.rs:15-31 | interpolating a template written from trees puts the trees' values in the holes |
| NumberLayout.TrimmedDigits | crates/expressions/src/number.rs:70-77 | trimming drops only trailing zeros of the fraction, and a bare point |
| NumberLayout.LayoutPreservesValue | crates/expressions/src/number.rs:61-94 | in all three layouts the text denotes exactly digits * 10^(exponent - digits + 1), sign included, and no fallback is taken |
| SetupForwarding.Forwarder.Start | crates/listener/src/setup_forwarding.rs:9-40 | the setup step's start, metadata and lines are delivered first, if there is one |
| SetupForwarding.Forwarder.Finish | crates/listener/src/setup_forwarding.rs:81-100 | the completion is delivered once |
| SetupForwarding.Forwarder.BeforeEvent | crates/listener/src/setup_forwarding.rs:43-78 | which events close setup and how, and which logs are routed to it |
| SetupForwarding.Forwarder.ForwardEvents | crates/listener/src/execution_loop.rs:483-513 | the receive loop is the run of the specified step over exactly the events up to the first one the receiver no longer takes, or all of them |
| SetupForwarding.Forwarder.ForwardJob | crates/listener/src/execution_loop.rs:466-548 | the whole job: how many events are read, the conclusion they give, and what a receiver gets that takes only so many deliveries |
| SetupForwarding.ReceiverSeesAPrefix | crates/listener/src/execution_loop.rs:483-513 | a receiver that goes away gets exactly the beginning of what the whole stream would have given |
| SetupForwarding.ForwardedStream | crates/listener/src/setup_forwarding.rs:9-100 | the whole forwarded stream: setup events, what arrived while it was open, one completion with its conclusion, everything after it |
| SetupForwarding.SetupComesFirst | crates/listener/src/setup_forwarding.rs:9-40 | the stream opens with the setup step's start, metadata and lines |
| SetupForwarding.SetupCompletesOnce | crates/listener/src/setup_forwarding.rs:81-100 | over every engine stream not completing the setup id itself, setup completes exactly once |
| SetupForwarding.LogsAreRouted | crates/listener/src/setup_forwarding.rs:62-68 | logs seen while setup is open, and later ones with the reserved id, go to the setup step; all other events keep order and step |
| SetupForwarding.NoSetupPassesThrough | crates/listener/src/setup_forwarding.rs:16-18 | without a setup step the stream passes through, error messages masked |
| SetupForwarding.LastCompletionDecides | crates/listener/src/execution_loop.rs:492-502 | the last job completion gives conclusion, outputs and URL |
| SetupForwarding.NoCompletionFails | crates/listener/src/execution_loop.rs:628-633 | a stream without a job completion ends in failure |
| StepReports.ReportsAreConserved | crates/listener/src/step_report_queue.rs:114-192 | under every interleaving the requests carry a prefix of the enqueued entries in order, all once the task has finished; none is empty and they are numbered 1, 2, 3, ... |
| StepReports.DoneIsFinal | crates/listener/src/step_report_queue.rs:135-176 | after the task has finished nothing more can happen |
| StepReports.RequestsOnlyGrow | crates/listener/src/step_report_queue.rs:182-209 | a longer run only adds requests |
| StepReports.RunQueue | crates/listener/src/step_report_queue.rs:160-192 | against every arrival schedule the task's loops send all entries in order, in nonempty numbered batches |
| Retry.JitterRangeIff | crates/listener/src/retry.rs:27-40 | the jittered backoff lies in [d/2, d) for every draw iff d is a nonzero multiple of two milliseconds of at most 2 * u64::MAX milliseconds |
| Retry.JitterReachesAll | crates/listener/src/retry.rs:27-40 | every whole number of milliseconds in that range is drawn by some draw |
| Retry.BackoffIs | crates/listener/src/retry.rs:49-92 | the n-th backoff is 2^n seconds, at most sixty |
| Retry.RetryTransient | crates/listener/src/retry.rs:64-98 | which attempt is the last and when the call ends: exactly the network failures within the budget whose sleep is not cancelled are retried, and the last outcome is returned; at most budget/500 ms + 2 attempts, sleeps within the budget in all |
| Retry.AttemptsAreBounded | crates/listener/src/retry.rs:64-98 | since every backoff gives at least 500 ms, at most budget/500 ms + 2 attempts are made |
| Retry.SleepsStayWithinBudget | crates/listener/src/retry.rs:57-63 | all sleeps together never ask for more than the budget |
| Retry.StartsWithinBudget | crates/listener/src/retry.rs:64-98 | every attempt starts within the budget, but for how late the sleep before it woke |
| Retry.OvershootIsOneAttempt | crates/listener/src/retry.rs:57-63 | wall time exceeds the budget by at most the last attempt, and the lateness of the sleep before it |

## Left out

- Docker, HTTP, the file system, the clock and locks: their answers are parameters, and each locked section is one step of a run; `Daemon` runs the sections of one operation in a row. Poisoned mutexes and log lines have no effect on the modelled state.
- `JobRegistry`: only the set of job ids `forget` removes from.
- Containers, caches, the route handlers other than admission, creation and release, onboarding, `check` and `doctor`: not modelled.
- The Aho-Corasick library: taken to report exactly all occurrences, in any order. Base64, hex and percent encoders are one function parameter of the pattern registry.
- LogRedaction: the pattern set is fixed for one log, and the automaton does the masking; `from_utf8_lossy` is any decoding that keeps a line one line.
- RSA: key parsing, DER, signing and OAEP; only the integer arithmetic of `compute_crt_params` is modelled.
- `diag_dir` path joins: the two log paths of a plist are fields of the model.
- Lexing works on characters, not bytes: every test the lexer and the template scanner make is on ASCII.
- Float parsing, float rendering to digits, Unicode upper-casing, `toJSON`, `fromJSON` and `hashFiles` are parameters of the evaluator. Negative zero is not told apart from zero.
- Array and object identity is modelled by the position of the tree node that allocated the value; every node is evaluated at most once.
- The four binary precedence levels of the parser are one method with a level, and `format::parse` is a function rather than a loop.
- Functions.SegmentsReadBack: says nothing of format specifiers after a `:`, which rendering refuses.
- Number, array and object literals in printed expressions: their text need not lex to one token.
- Numbers outside exponents -4 to 14, written with `E`: only the plain layouts are proved; `NumberLayout.LayoutPreservesValue` holds for every exponent.
- `unrolled_format`, `format_parameter` and `references` of the display module: only add easy members.
- The deadline of `drain`: not modelled; the queue may be seen at any point of its run.
- Step entries' contents (names, numbers, timestamps): an entry is opaque to the queue.
