# A verified model of the rollout scripts, guarded migrations and lifespan

This Dafny project models the parts of the backend where a mistake would be
hard to see by reading: the campaign rollout preparer, migration 138 with its
row repairs, the log redactor, the event-action compiler with migration 126,
the scheduler lock in the application lifespan, the score backfill, the
quarantines of migrations 129 and 130 with their dry-run report, and the phone
re-normalisation script. `dafny verify dfyconfig.toml` checks everything.

Code that changes state step by step is a class whose methods are proved equal
to a function of the old state; what the code is for is then proved about those
functions, over every input, every run or every interleaving. Where a promise
of the code or its documentation holds only under a condition, the condition is
proved exact, in both directions.

A function that the code and its specification share could be wrong in both at
once. So beside each part stands a `*Facts.dfy`, which tells the effect of that
part once more, row by row, in columns, numbers and literal text instead of the
part's own tests; its lemmas connect the two.

| file | what it models |
|---|---|
| `Common.dfy` | options, WHERE, ORDER BY, dictionaries of lists, decimal text |
| `LedgerPlan.dfy`, `LedgerParity.dfy`, `LedgerContention.dfy`, `LedgerEngine.dfy`, `LedgerFacts.dfy` | the greedy ledger matcher, its apply phase, parity, replay, the input-level conditions for them, and the engine's own report on the result |
| `ConsentPlan.dfy`, `ConsentReplay.dfy`, `ConsentFacts.dfy` | the consent planner, its apply phase, replay and the readiness report |
| `Prepare.dfy`, `PrepareFacts.dfy` | the start time and the whole command over one database object |
| `Redactor.dfy`, `LogFilter.dfy`, `RedactorFacts.dfy` | the query-string redactor against its regular expression, and the logging filter |
| `FunnelCompiler.dfy`, `FunnelStore.dfy`, `FunnelProtocol.dfy`, `FunnelFacts.dfy` | the compiler's meaning, its tables, and every sequence of compiles, edits and runs of 126 |
| `Leadership.dfy`, `LeadershipFacts.dfy` | the lock protocol of the lifespan over any number of processes |
| `SchemaMigration.dfy`, `SchemaRoundTrip.dfy`, `SchemaRefusals.dfy`, `SchemaDatabase.dfy`, `SchemaFacts.dfy`, `SchemaUndoFacts.dfy` | migration 138: guarded upgrade, preflighted downgrade, which downgrades go through, helpers and drivers |
| `SchemaNames.dfy`, `SchemaPlan.dfy`, `SchemaPlanFacts.dfy` | the names of 138, and its plan written out: all fifteen tables with columns, keys and indexes |
| `EndpointBackfill.dfy`, `EndpointFacts.dfy` | the row repairs of 138 |
| `MesBackfill.dfy`, `MesStore.dfy`, `MesScoring.dfy`, `MesScript.dfy`, `MesFacts.dfy` | the creation and scoring loops of the score backfill, the three effects of one computation, and the script |
| `Quarantine.dfy`, `QuarantineFacts.dfy` | migrations 129 and 130 and the report that predicts 130 |
| `PhoneRename.dfy`, `RenameFacts.dfy` | the three phases of the phone re-normalisation |

Results that differ from what the code or its comments suggest:

* The ledger matcher does not consult its own `exact` dictionary when it looks
  for a row to canonicalize, so it can take the row that already records a
  later log. Parity, injectivity and replay hold exactly when it does not
  (`ParityIff`, `InjectiveIff`, `ReplayIff`). Read off the logs and the ledger
  before planning: parity holds when no log that needs a row has a later log's
  recorded row within its window (`UncontendedIsSafe`), and exactly then where
  no log has a choice of rows (`ParityByInput`). `TheftWhenever` gives the step
  at which it fails, in any tables.
* An already-canonical log is recognised by its key alone, whatever the time of
  the row (`AlreadyIgnoresTime`).
* The engine's own parity query joins on the stored `source_type`, which the
  planner does not always write. Over a ledger whose rows all have a source
  that is not blank and fits the column, and where the matcher has no choice and
  nothing to take, a log is matched after apply exactly when its source type is
  not blank and has at most 30 characters (`OrdinaryIff`), and the ratio of the
  report is one exactly when every expected log is of that kind (`RatioIsOneIff`).
  The two kinds that fail: a source type of 31 to 50 characters, which the log's
  column holds and the ledger's does not, is expected and never matched
  (`OverlongIsNeverMatched`); a blank one is matched only by an old blank row
  that the plan leaves alone (`BlankMatchedIff`, `BlankLogAndRow`).
* Apply adds no duplicate key to the engine's report (`NoNewDuplicates`), but a
  second row for a key in the whole ledger exactly when a row older than the
  planner's window carries it (`SecondRowIff`).
* An apply run grants an endpoint of an eligible contact exactly when it was
  granted before or the contact's evidence does not yet carry its reference
  (`GrantedAfterIff`). An expired grant under that reference, or one that names
  no endpoint, stops the grant for good (`UsedReferenceIsNotRenewed`).
* A sensitive parameter opened by a question mark is masked on its own exactly
  when no earlier sensitive value runs into it: a value may hold question marks,
  so in `?key=a?token=b` the second parameter is part of the first one's value
  and its own name is lost with it (`ParameterIsMaskedIff`, `SwallowedText`). No
  secret is left either way, and one opened by an ampersand is always masked.
* Weekly and daily caps never move the ledger's start time
  (`WeeklyAndDailyNeverMatter`).
* `create_missing_records` covers every other batch of what is missing. One run
  is complete exactly when at most one batch is missing, and k runs exactly when
  at most 2^k - 1 batches are.
* A computation has three effects, not two: it can return without an error and
  without clearing the mark, as it does for an external touch. `compute_scores`
  ends exactly when every stale score clears (`TerminatesIff`); it counts a
  skipped score as computed each time (`ComputedIs`); and one touch that the
  creation loop itself made a score for is enough for it never to end, with no
  error counted (`TouchNeverEnds`).
* At most one process has workers running, in every run, exactly when every
  started worker has a stop call (`ExclusiveIff`); the application's lists have.
* A lifespan follower never becomes leader: when the leader goes, nothing starts
  until some process boots again (`NoFailover`), and then a boot is enough
  (`BootRecovers`).
* "WILL BE QUARANTINED" in the report for 130 is true of exactly the active
  rows, and the other verdicts are silent about exactly the rows that share a
  phone (`PromiseKeptIff`); its total is the number of quarantined rows exactly
  when these two kinds of exception balance (`ReportBalance`).
* After a successful upgrade the downgrade of 138 goes through exactly when the
  states' columns were there, their constraint's name was not held by something
  else, and no two rows clash (`DowngradeOkIff`).
* Upgrading and downgrading 138 restores a schema whose verification states lack
  the unique constraint of 137 with that constraint added (`RoundTripIff`).
* A known but non-primary endpoint is not promoted by the backfill
  (`PrimaryAfterIff`), and on a retry linking fails exactly when an endpoint is
  already taken (`LinkKeepsIff`).
* Sequential phone renames are the simultaneous substitution exactly when no
  rename starts where an earlier one ends (`SequentialIsSimultaneousIff`); the
  dry run undercounts exactly when a row stands at the start of such a chain.

## Model

| member | source | states |
|---|---|---|
| LedgerPlan.IndexLedger | scripts/prepare_campaign_rollout.py:243-246 | the dictionary built row by row maps each key to its last row |
| LedgerPlan.PlanLedger | scripts/prepare_campaign_rollout.py:247-291 | the matching loop with its used set returns exactly the planned rewrites and creations, and counters that sum to the number of logs |
| LedgerPlan.CandidatesByContact | scripts/prepare_campaign_rollout.py:247-272 | searching one contact's group finds the same candidates as searching the whole ledger |
| LedgerPlan.TallyTotal | scripts/prepare_campaign_rollout.py:254-291 | conservation: each log meets exactly one of the five outcomes |
| LedgerParity.CanonicalizeMeans | scripts/prepare_campaign_rollout.py:268-278 | a canonicalized row is in the log's five-second window and of its contact, the log has no exact row, and no earlier log uses the row |
| LedgerParity.WrittenRow | scripts/prepare_campaign_rollout.py:417-422 | after apply every canonicalized or new log has its row under its assigned id, with its user, channel, source, id and time |
| LedgerParity.UntouchedRow | scripts/prepare_campaign_rollout.py:417-422 | a row the plan does not rewrite is in the table afterwards unchanged |
| LedgerParity.RowOrigin | scripts/prepare_campaign_rollout.py:417-422 | every row afterwards is an untouched old row or was written for some log |
| LedgerParity.AfterIsKeyed | scripts/prepare_campaign_rollout.py:417-423 | ids stay distinct and the table grows by exactly the created rows |
| LedgerParity.ParityIff | scripts/prepare_campaign_rollout.py:243-291 | every planned log's row carries its key after apply if and only if no rewritten row is another planned log's exact row |
| LedgerParity.InjectiveIff | scripts/prepare_campaign_rollout.py:251-290 | planned logs are assigned distinct rows under exactly that condition |
| LedgerParity.TheftHappens | scripts/prepare_campaign_rollout.py:263-278 | for any two logs of one contact within the window of a row that records only the second, the plan takes the row for the first and parity fails |
| LedgerContention.UncontendedIsSafe | scripts/prepare_campaign_rollout.py:243-291 | if no log that needs a row has a later log's recorded row in its window, which the inputs show, nothing is taken, parity holds and the assignment is injective |
| LedgerContention.ParityByInput | scripts/prepare_campaign_rollout.py:263-281 | where no log has a choice of rows, that condition on the inputs is exactly what parity needs |
| LedgerContention.TheftWhenever | scripts/prepare_campaign_rollout.py:263-278 | in any tables, a log whose only unused candidate is the row that records another log takes it, the other log is later, and parity and injectivity fail |
| LedgerContention.WrittenStaysRecorded | scripts/prepare_campaign_rollout.py:243-267 | a log the first run wrote is found again under a row with its key and its time |
| LedgerContention.AlreadyIgnoresTime | scripts/prepare_campaign_rollout.py:263-267 | an already-canonical log's row stays as it is and carries the log's time exactly when it did before |
| LedgerParity.EngineMatchedIff | app/routers/engine.py:21-30 | after apply the engine's join finds a log's row if and only if the plan wrote it under the log's own source type or left an old one standing |
| LedgerEngine.RewrittenIff | scripts/prepare_campaign_rollout.py:268-278 | where no log has a choice and nothing is contended, the rewritten rows are exactly those in the window of a log that needs one and recording none |
| LedgerEngine.EngineMatchedByInput | app/routers/engine.py:21-30 | read off the inputs: matched after apply if and only if the source type is ordinary or an unwanted old row carries it as it is |
| LedgerEngine.OrdinaryIff | app/routers/engine.py:21-30 | over rows with ordinary sources, the log's source type alone decides |
| LedgerEngine.OverlongIsNeverMatched | scripts/prepare_campaign_rollout.py:259-262 | a log whose source type the ledger cannot hold is skipped and never matched |
| LedgerEngine.BlankMatchedIff | scripts/prepare_campaign_rollout.py:259-289 | a log with a blank source type is matched only by an old blank row that the plan leaves alone |
| LedgerEngine.BlankLogAndRow | scripts/prepare_campaign_rollout.py:259-289 | at one blank log and one blank row with its id: matched if and only if the row is outside the window |
| LedgerEngine.ExpectedIsPlanned | app/routers/engine.py:33-36 | an expected log is planned unless it was never sent and was delivered before the start |
| LedgerEngine.RatioIsOneIff | app/routers/engine.py:21-37 | the report's ratio is one after apply if and only if every expected log has an ordinary source type |
| LedgerEngine.NoNewDuplicates | app/routers/engine.py:38-47 | two rows of the planner's window that share a key after apply are two old rows it left alone |
| LedgerEngine.SecondRowIff | app/routers/engine.py:38-47 | a written log's key is carried twice in the whole ledger if and only if a row outside the planner's window carries it |
| LedgerParity.SecondVerdict | scripts/prepare_campaign_rollout.py:231-291 | a second plan over the applied ledger finds a log already canonical if and only if the first wrote its row or left one standing |
| LedgerParity.ReplayIff | scripts/smoke_campaign_rollout_preparation.py:115-143 | the second plan finds everything settled if and only if the first left no log ambiguous and kept a row for every canonical log |
| LedgerParity.ReplayChangesNothing | scripts/prepare_campaign_rollout.py:231-291 | with nothing ambiguous and nothing taken, a second run rewrites and creates nothing and the ledger is a fixed point |
| LedgerFacts.LogsSelected | scripts/prepare_campaign_rollout.py:232-238 | a send is looked at exactly when it is of the project, of a known contact, in one of the five statuses, and its sent, else delivered, else queued time is not before the start |
| LedgerFacts.RowsSelected | scripts/prepare_campaign_rollout.py:239-242 | the ledger rows looked at are the project's from five seconds (5 000 000 microseconds) before the start, oldest first |
| LedgerFacts.SettledIs | scripts/prepare_campaign_rollout.py:257-267 | a source over 30 characters is passed over; otherwise a send is settled exactly by the last row with its contact, channel, source and id |
| LedgerFacts.SearchIs | scripts/prepare_campaign_rollout.py:268-290 | a send that is not settled takes the one unused row of its contact within five seconds either side of its time, is ambiguous with two, and is new with none |
| LedgerFacts.OneSendOneRow | scripts/prepare_campaign_rollout.py:258-291 | one send and one row of its contact without an id: the row is taken exactly within five seconds of the sent time, whatever the delivery time |
| LedgerFacts.LedgerAfter | scripts/prepare_campaign_rollout.py:417-423 | every row after apply: an old one as it was, or telling the contact, channel, source, id and time of the send that took it; then one row for each new send in order, under the next ids |
| LedgerFacts.CountersAre | scripts/prepare_campaign_rollout.py:254-290 | the five counters are the numbers of sends with each decision |
| LedgerFacts.RatioInFull | app/routers/engine.py:21-37 | the ratio written out over the columns, where rows are ordinary and no send has a choice or a contended row: every reported send is joined after apply exactly when every reported source type has one to thirty characters |
| LedgerFacts.DuplicatesInFull | app/routers/engine.py:38-47 | two rows of the window with one key after apply were both there and neither is in the plan |
| ConsentPlan.TallyCounts | scripts/prepare_campaign_rollout.py:152-226 | each outcome's counter is the number of contacts that meet it |
| ConsentPlan.TallyTotal | scripts/prepare_campaign_rollout.py:153-226 | the five outcomes partition the contacts |
| ConsentPlan.JudgeEndpoints | scripts/prepare_campaign_rollout.py:165-220 | the loop is blocked if and only if some endpoint is refused, and otherwise attests exactly the endpoints without evidence |
| ConsentPlan.SeenOrAttested | scripts/prepare_campaign_rollout.py:183-226 | of a contact that no refusal stops, each endpoint is counted as evidenced or attested |
| ConsentPlan.PlanConsent | scripts/prepare_campaign_rollout.py:113-228 | the planner returns the planned endpoints, the eligible contacts and exact counters, evidenced endpoints included |
| ConsentReplay.FirstIsNewest | scripts/prepare_campaign_rollout.py:136-172 | the first applicable row found is the newest one |
| ConsentReplay.RefusalBlocksContact | scripts/prepare_campaign_rollout.py:167-176 | one endpoint whose newest applicable evidence is denied or withdrawn makes its contact ineligible, and no planned row belongs to that contact |
| ConsentReplay.EvidenceAfter | scripts/prepare_campaign_rollout.py:198-223 | a contact's evidence grows by exactly one grant for each endpoint it gained |
| ConsentReplay.ApplyKeepsValid | scripts/prepare_campaign_rollout.py:402-416 | the apply phase keeps the tables' keys |
| ConsentReplay.ConsentReplay | scripts/prepare_campaign_rollout.py:149-228 | applying and planning again at the same clock plans nothing and changes nothing |
| ConsentReplay.ReadinessAfter | scripts/prepare_campaign_rollout.py:294-344 | the reported granted endpoints grow by exactly the planned ones and no eligible contact is lost |
| ConsentReplay.GrantedAfterIff | scripts/prepare_campaign_rollout.py:177-206 | for every endpoint of an eligible contact: granted after apply if and only if granted before or no evidence of the contact carries its reference |
| ConsentReplay.UsedReferenceIsNotRenewed | scripts/prepare_campaign_rollout.py:177-197 | an expired grant for the endpoint, or a grant that names no endpoint, under the same reference counts as evidence, is not renewed and grants nothing |
| ConsentFacts.UsersAre | scripts/prepare_campaign_rollout.py:122-126 | the contacts looked at are the active ones of the project that are not sandboxes |
| ConsentFacts.EndpointIs | scripts/prepare_campaign_rollout.py:167-220 | per endpoint: a newest row for it, or for no endpoint, that is "denied" or "withdrawn" stops it; else an unexpired grant for it counts; else a row under its reference counts if granted and stops it otherwise; only then is a grant planned |
| ConsentFacts.ContactIs | scripts/prepare_campaign_rollout.py:153-227 | per contact, in this order: opted out (globally, unsubscribed, or "email" among the channels), not subscribed, without endpoint, stopped by some endpoint, eligible |
| ConsentFacts.PlanIs | scripts/prepare_campaign_rollout.py:149-228 | the planned grants are exactly the fresh endpoints of the contacts that pass, written out over the three tables |
| ConsentFacts.PlanIsDistinct | scripts/prepare_campaign_rollout.py:221-226 | no endpoint is planned twice |
| ConsentFacts.EvidenceAfterIs | scripts/prepare_campaign_rollout.py:198-220 | the evidence table after apply: the old rows, then one row for each planned endpoint with every column given |
| ConsentFacts.ContactsAfter | scripts/prepare_campaign_rollout.py:404-416 | exactly the contacts that pass get the email consent of now; nothing else of anybody changes |
| ConsentFacts.TotalSeenIs | scripts/prepare_campaign_rollout.py:183-194 | the counter of evidenced endpoints counts, for each contact that reaches its endpoints, those before the first one that stops it |
| ConsentFacts.GrantedAre | scripts/prepare_campaign_rollout.py:305-312 | the report's granted endpoints, by the evidence rows' columns |
| ConsentFacts.EligibleContactsAre | scripts/prepare_campaign_rollout.py:313-328 | the report's eligible contacts, by the columns of all four tables |
| Prepare.WeeklyAndDailyNeverMatter | scripts/prepare_campaign_rollout.py:91-110 | the two caps never decide the start time |
| Prepare.SinceCovers | scripts/prepare_campaign_rollout.py:89-110 | the start time reaches back to everything an active limit looks at |
| PrepareFacts.SinceIs | scripts/prepare_campaign_rollout.py:89-110 | the start time is the earliest of seven days ago, the starts of month, week and day of active caps, the cooldowns and the conflict window ago, in microseconds |
| PrepareFacts.BlankIs | scripts/prepare_campaign_rollout.py:359-360 | a reference or note is blank exactly when every character is among the 29 code points that Python's strip removes |
| PrepareFacts.MeasureIs | scripts/prepare_campaign_rollout.py:294-344 | the two readiness sets of a database, by the columns of its tables |
| Prepare.RelevantSince | scripts/prepare_campaign_rollout.py:89-110 | the source's computation over all six starts gives that start time |
| Prepare.Database.ApplyLedger | scripts/prepare_campaign_rollout.py:417-422 | the in-place rewrites and insertions give the applied ledger |
| Prepare.Database.AddGrants | scripts/prepare_campaign_rollout.py:402-403 | one grant is added for each planned endpoint, with fresh ids |
| Prepare.Database.RefreshCaches | scripts/prepare_campaign_rollout.py:404-416 | the cached consent of exactly the eligible contacts is refreshed |
| Prepare.Database.Commit | scripts/prepare_campaign_rollout.py:402-423 | the writes give the applied consent tables and the applied ledger |
| Prepare.Database.Run | scripts/prepare_campaign_rollout.py:347-436 | a blank attestation or a preview changes nothing; an apply commits both plans; a dependency failure is raised after the commit |
| Prepare.Database.RunTwice | scripts/smoke_campaign_rollout_preparation.py:115-143 | a second apply at the same clock finds nothing new, when nothing was ambiguous or taken |
| Redactor.HeaderIs | app/logging_security.py:10-12 | the scan for a parameter name finds exactly the headers the expression describes, whichever alternative matches |
| Redactor.MatchInFront | app/logging_security.py:10-25 | a header, a value and what ends it are one match, and the value becomes the mask |
| Redactor.SecretIndependence | app/logging_security.py:10-25 | two texts that differ only in one parameter's value are redacted to the same text, whatever precedes and follows |
| Redactor.RedactIdempotent | app/logging_security.py:24-25 | a second pass changes nothing |
| Redactor.CleanIff | app/logging_security.py:10-25 | redaction leaves a text alone if and only if every sensitive parameter's whole value is the mask |
| Redactor.RedactIsClean | app/logging_security.py:24-25 | what redaction produces is of that kind |
| Redactor.ScanIsSubstitution | app/logging_security.py:10-25 | any leftmost, greedy, non-overlapping list of regions of the expression's language gives the scanner's output |
| Redactor.SubstitutionExists | app/logging_security.py:10-25 | such a list of regions exists for every text |
| Redactor.SensitiveIsWellFormed | app/logging_security.py:10-12 | the actual names, terminators and mask meet what the theorems ask |
| RedactorFacts.ParameterIsMaskedIff | app/logging_security.py:10-25 | for "?" or "&", any of the five names in any case, any value and any surroundings: the value becomes the mask and both sides are redacted on their own, always after "&", and after "?" exactly when no earlier value runs into it |
| RedactorFacts.SecretLeavesNoTrace | app/logging_security.py:10-25 | the redacted text is the same for any two values of such a parameter, whatever their lengths |
| RedactorFacts.SwallowedText | app/logging_security.py:10-25 | a text with two "?" parameters in which the second is taken for a part of the first one's value |
| RedactorFacts.RedactReplaces | app/logging_security.py:10-25 | any list of non-overlapping parameters, spelled out by character, that covers every parameter gives the redacted text by replacing their values |
| RedactorFacts.ListExists | app/logging_security.py:10-25 | there is such a list for every text |
| LogFilter.ArgOnce | app/logging_security.py:31-38 | redacting an argument twice is redacting it once, and its rendering is clean |
| RedactorFacts.LeakIs | app/logging_security.py:36 | a text is searched successfully exactly when it has a sensitive parameter with a value that is not empty |
| RedactorFacts.ArgumentIs | app/logging_security.py:31-38 | text is redacted; an object becomes its redacted rendering if that has such a parameter and stays itself otherwise |
| RedactorFacts.RecordIs | app/logging_security.py:40-47 | a record keeps the number and names of its arguments, each redacted so, and of the message only text is redacted |
| LogFilter.LogRecord.Filter | app/logging_security.py:40-47 | one pass rewrites the message and the arguments and always keeps the record |
| LogFilter.LogRecord.Emit | app/logging_security.py:40-62 | any positive number of passes leaves what one pass leaves, with clean arguments, and a clean message unless it is an object that renders unclean |
| LogFilter.AttachTo | app/logging_security.py:60-61 | each handler gets the filter once and keeps its others |
| LogFilter.Install | app/logging_security.py:50-62 | every logger and handler reached carries the filter exactly once |
| FunnelCompiler.FillSlotsStable | alembic_event_action_compiler.py:29-40 | a list with all slot ids is left alone |
| FunnelCompiler.FillSlotsFills | alembic_event_action_compiler.py:29-34 | filling reaches every action and changes nothing but missing slot ids |
| FunnelCompiler.EmitLength | alembic_event_action_compiler.py:86-111 | there are as many steps as actions plus positive delays |
| FunnelCompiler.TimelineAt | alembic_event_action_compiler.py:87-111 | action i is due at the sum of the positive delays up to its own |
| FunnelCompiler.CompiledMeaning | alembic_event_action_compiler.py:85-111 | running the emitted steps by position fires the source actions in order, each with its own type, config, slot and time |
| FunnelCompiler.DecompileIff | alembic_event_action_compiler.py:87-111 | decompiling succeeds on exactly the step lists that compiling produces, with a unique answer |
| FunnelCompiler.EmitLosesOnlyDefaults | alembic_event_action_compiler.py:87-111 | two action lists compile alike if and only if they agree up to absent configs and non-positive delays |
| FunnelFacts.SlotsAre | alembic_event_action_compiler.py:29-34 | the n-th action without a slot id, or with an empty one, gets the n-th next id; nothing else changes |
| FunnelFacts.StepsAre | alembic_event_action_compiler.py:86-111 | where in the steps each action stands, with its kind, slot and configuration (an empty one if it has none), after a wait of its delay if that is positive |
| FunnelStore.Connection.FillMissing | alembic_event_action_compiler.py:29-34 | the loop fills slot ids in place and reports whether any was missing |
| FunnelStore.Connection.CollectRules | alembic_event_action_compiler.py:42-51 | the loop keeps exactly the object conditions with an event, in order |
| FunnelStore.Connection.UpsertRow | alembic_event_action_compiler.py:53-83 | the funnel is inserted or updated and belongs to the event action |
| FunnelStore.Connection.InsertSteps | alembic_event_action_compiler.py:86-111 | the loop with its running position inserts the emitted steps numbered from zero |
| FunnelStore.Connection.CompileEventAction | alembic_event_action_compiler.py:19-113 | one compile has the specified effect on all tables; an unknown id has none |
| FunnelFacts.CompileIs | alembic_event_action_compiler.py:19-113 | from the authored list to what fires: after a compile action i is stored as authored but for a missing slot, and fires with its own kind, slot and configuration at the start plus the positive delays up to its own; the ids used up are exactly the missing ones |
| FunnelFacts.StepRowsAre | alembic_event_action_compiler.py:85-111 | the step rows of the funnel, column by column, numbered from zero |
| FunnelFacts.RulesAre | alembic_event_action_compiler.py:42-51 | one rule for each object condition with an event, in order, with its event and its window, zero being none |
| FunnelFacts.FunnelIs | alembic_event_action_compiler.py:53-83 | the funnel row after a compile: which id it has, and the value of each of the eleven columns that the table has |
| FunnelFacts.OtherColumnsStay | alembic_event_action_compiler.py:15-16 | columns that are not written, or that the table lacks, keep what they held |
| FunnelFacts.OrphansAreThose | alembic/versions/126_compile_orphan_event_actions.py:21-33 | the migration takes exactly the event actions that no funnel names, each once, by ascending id |
| FunnelStore.Connection.Upgrade126 | alembic/versions/126_compile_orphan_event_actions.py:21-33 | the loop compiles the orphans found before it, in id order |
| FunnelProtocol.CompileCompiles | alembic_event_action_compiler.py:19-113 | after a compile the event action's slots are stored, it has its one funnel, and that funnel's steps are what the stored actions emit |
| FunnelProtocol.CompileLeavesOthers | alembic_event_action_compiler.py:73-85 | nothing of any other event action changes |
| FunnelProtocol.RecompileKeepsSteps | alembic_event_action_compiler.py:29-113 | recompiling an unchanged action keeps its actions, funnel id and every step's type, config, slot and position |
| FunnelProtocol.CompileTwice | alembic_event_action_compiler.py:19-113 | compiling twice is compiling once |
| FunnelProtocol.MigrationFacts | alembic/versions/126_compile_orphan_event_actions.py:21-33 | after 126 no orphan remains, former orphans are compiled, others are untouched |
| FunnelProtocol.PerformFacts | alembic_event_action_compiler.py:19-113 | each compile, migration or edit keeps the invariant, and keeps compiled actions compiled unless that one is edited |
| FunnelProtocol.HistoryFacts | alembic/versions/126_compile_orphan_event_actions.py:21-33 | over any sequence of operations each event action keeps at most one funnel, and stays compiled since its last compile while unedited |
| FunnelProtocol.CompiledRuns | alembic_event_action_compiler.py:85-111 | a compiled event action has steps at positions 0 to n-1 and fires its stored actions at their own times |
| Leadership.RunKeepsInv | app/main.py:151-226 | over every interleaving each process runs what its phase allows, leaders hold the lock, sessions are distinct |
| Leadership.AtMostOneActive | app/main.py:151-226 | when every started worker has a stop call: a process with a running worker, booted or not, holds the lock, and no two processes have one |
| Leadership.ExclusiveIff | app/main.py:163-226 | at most one process has workers running in every run if and only if every started worker has a stop call |
| Leadership.ReleasesIdleIff | app/main.py:192-226 | a session is closed only when nothing it started runs, in every run, if and only if every started worker has a stop call |
| Leadership.AlwaysPrefixIff | app/main.py:163-215 | the running set is always a prefix of the start list if and only if the stop list is its reverse |
| Leadership.NoFailover | app/main.py:151-188 | once nobody leads, no worker starts until some process boots; with matching lists none runs |
| Leadership.BootRecovers | app/main.py:151-163 | from any such world any process that is down can boot, is granted the lock and leads |
| LeadershipFacts.NobodyTakesOver | app/main.py:151-188 | once no process leads or is asking, none leads and no worker starts until one boots, from any reachable world and over any steps |
| LeadershipFacts.BootTakesOver | app/main.py:151-190 | then the lock, if held, can be freed, and any process that is down can boot and serve with every worker running |
| LeadershipFacts.RefusedServes | app/main.py:153-190 | in any world with the lock held, any process that is down can boot, be refused, and serve without workers; nothing changes for the others |
| LeadershipFacts.GrantedServes | app/main.py:153-190 | in any world with the lock free, it can boot, be granted the lock and serve with every listed worker running |
| LeadershipFacts.AnswersAre | app/main.py:155-161 | the database grants only a free lock, refuses only a held one, and a question that raises has taken it only if it was free |
| LeadershipFacts.LifeRuns | app/main.py:151-226 | every life of one process, with any failure in it, is a run of any world in which it is down and the database can give its answer; the lock is its own exactly if it was granted or taken |
| LeadershipFacts.LeaderStarted | app/main.py:163-186 | after k start calls a leader runs exactly the first k workers of the list |
| LeadershipFacts.LeaderStopped | app/main.py:192-214 | after j stop calls it runs exactly those that none of the first j stopped |
| LeadershipFacts.FollowerPlays | app/main.py:187-226 | a refused process serves, and leaves, without ever running a worker |
| LeadershipFacts.FailuresPlay | app/main.py:163-226 | what a call that raises leaves running, at each start, each stop and the release |
| LeadershipFacts.FreedIff | app/main.py:220-225 | the lock is freed exactly when no process has the session that holds it |
| Leadership.SchedulersAreSafe | app/main.py:163-215 | the application's own two lists have all three properties: prefix, idle release, exclusiveness |
| Leadership.Lifespan.AskForLock | app/main.py:153-161 | the three answers of the lock query, as protocol steps |
| Leadership.Lifespan.StartWorkers | app/main.py:163-188 | the start calls, up to one that raises, as protocol steps |
| Leadership.Lifespan.StopWorkers | app/main.py:192-214 | the stop calls, up to one that raises, as protocol steps |
| Leadership.Lifespan.Shutdown | app/main.py:192-226 | the stops, then the session is closed; a failure leaves it open |
| Leadership.Lifespan.Live | app/main.py:151-226 | one process's whole run is a run of the protocol, and ends down exactly when nothing raised |
| SchemaMigration.CreatedIsComplete | alembic/versions/138_campaign_data.py:211-278 | a table made here passes the shape validation |
| SchemaMigration.ApplySettles | alembic/versions/138_campaign_data.py:202-323 | a unit run again at once changes nothing |
| SchemaMigration.ApplyKeepsSettled | alembic/versions/138_campaign_data.py:202-323 | a later compatible unit does not unsettle an earlier one |
| SchemaMigration.UpgradeInOrder | alembic/versions/138_campaign_data.py:326-1098 | the program order satisfies every dependency between units |
| SchemaMigration.Attempts | alembic/versions/138_campaign_data.py:326-1098 | an attempt cut after k units followed by one cut after j is the longer of the two |
| SchemaMigration.Retry | alembic/versions/138_campaign_data.py:326-1098 | any number of interrupted attempts followed by a full run reach what one full run reaches |
| SchemaFacts.AllThere | alembic/versions/138_campaign_data.py:326-1098 | after a successful upgrade, read off the entries: each new table is there, marked and of full shape, with every index; each link column, switch, partial index, composite unique constraint and foreign key is there where the objects it needs are; the legacy constraint is gone |
| SchemaFacts.OnlyDue | alembic/versions/138_campaign_data.py:326-1098 | and nothing else: each entry was there before or is one of those, down to its definition and the ownership text |
| SchemaFacts.IndexIs | alembic/versions/138_campaign_data.py:202-208 | an index of a new table that was not there has the planned columns, uniqueness and filter, and the ownership text |
| SchemaFacts.PartialIs | alembic/versions/138_campaign_data.py:985-1003 | so has each partial index that replaces the legacy constraint |
| SchemaFacts.LinkKeyIs | alembic/versions/138_campaign_data.py:926-949 | a link column that was not there comes with its foreign key, both marked |
| SchemaFacts.ShapeIs | alembic/versions/138_campaign_data.py:211-260 | the shape test, over the entries: all columns, the primary key, each unique constraint by name and columns, each foreign key by columns and target |
| SchemaFacts.UpgradeSucceeds | alembic/versions/138_campaign_data.py:326-1098 | the upgrade goes through from every schema in which each unit finds what it needs there, or made earlier, and its names free |
| SchemaFacts.UpgradeIsClean | alembic/versions/138_campaign_data.py:326-1098 | after it index names are unique and each foreign key made points at columns under a primary key or unique constraint, if that was so before |
| SchemaPlanFacts.PrimaryIndexesAre | alembic/versions/138_campaign_data.py:375-381 | the one-primary and one-default indexes: their columns, that they are unique, and their filters, as text |
| SchemaPlanFacts.StateIndexesAre | alembic/versions/138_campaign_data.py:990-1003 | the two indexes of the verification states, likewise |
| SchemaPlanFacts.LinksAre | alembic/versions/138_campaign_data.py:929-949 | each of the four tables that had no endpoint column has a nullable one with a foreign key to the endpoints, both marked |
| SchemaPlanFacts.SwitchesAre | alembic/versions/138_campaign_data.py:955-971 | the four switches that were not there are there, not null, off by default, and marked |
| SchemaPlanFacts.PlanExists | alembic/versions/138_campaign_data.py:326-1098 | there is a plan over the names of the revision that these are about |
| SchemaRoundTrip.DuplicatesIff | alembic/versions/138_campaign_data.py:1115-1128 | the preflight query finds a row if and only if the restored constraint would be violated |
| SchemaRoundTrip.ApplyInv | alembic/versions/138_campaign_data.py:263-323 | each unit keeps what the earlier schema had and adds only what the downgrade recognises |
| SchemaRoundTrip.Covered | alembic/versions/138_campaign_data.py:1130-1207 | everything the upgrade can make is some downgrade unit's to remove |
| SchemaRoundTrip.TablesDrop | alembic/versions/138_campaign_data.py:1195-1197 | in reverse order no table is dropped while another points at it |
| SchemaRoundTrip.DowngradeRestores | alembic/versions/138_campaign_data.py:1101-1207 | a successful downgrade leaves exactly the base schema with the constraint of 137 on the states |
| SchemaRoundTrip.DowngradeSucceeds | alembic/versions/138_campaign_data.py:1101-1207 | the downgrade goes through when the states' columns were there, no rows clash and the constraint is gone |
| SchemaRefusals.DowngradeOkIff | alembic/versions/138_campaign_data.py:1101-1207 | after a successful upgrade the downgrade goes through if and only if the states' three columns were there, nothing but a unique constraint held the name, and no two rows clash |
| SchemaRefusals.OnlyDuplicatesRefuse | alembic/versions/138_campaign_data.py:1105-1128 | then, with the columns there and the name free, the only refusal is the preflight's for duplicate rows |
| SchemaRefusals.NamesakeSurvives | alembic/versions/138_campaign_data.py:986-989 | a constraint of the legacy name that is not a unique one survives the upgrade |
| SchemaRefusals.UpgradeNeeds | alembic/versions/138_campaign_data.py:211-278 | the upgrade goes through only if no table of the revision's names is someone else's and none of its own, but the repaired one, is incomplete |
| SchemaRefusals.KeysGoFirst | alembic/versions/138_campaign_data.py:1130-1207 | when the composite unique constraints are dropped, every foreign key left is one of the base schema |
| SchemaFacts.UnitPassesIff | alembic/versions/138_campaign_data.py:202-323 | a unit is refused exactly when the schema misses what its statement needs, written out for each kind |
| SchemaFacts.UpgradeAsks | alembic/versions/138_campaign_data.py:263-278 | a table of the revision that is there when an upgrade goes through carries the ownership text and, but for the repaired one, is of full shape |
| SchemaUndoFacts.PreflightIs | alembic/versions/138_campaign_data.py:1101-1128 | the downgrade is refused beforehand exactly for a table of the revision's names without the ownership text, and then for two rows of one project, contact and kind |
| SchemaUndoFacts.UnitIs | alembic/versions/138_campaign_data.py:1132-1207 | entry by entry, from any schema: what each unit of the downgrade takes, that it adds only the legacy constraint where that is missing, and exactly when the database refuses it |
| SchemaUndoFacts.UntouchedStays | alembic/versions/138_campaign_data.py:1101-1207 | a schema with the constraint of 137, without a mark and without the revision's tables, is left exactly as it is |
| SchemaFacts.OutsideKeyBlocks | alembic/versions/138_campaign_data.py:1130-1207 | a foreign key that nobody marked and that points at a marked table from elsewhere stops the downgrade |
| SchemaRoundTrip.RoundTripIff | alembic/versions/138_campaign_data.py:926-1207 | upgrade then downgrade restores the schema exactly if and only if the states are absent, or carry the constraint of 137 and no rows clash |
| SchemaRoundTrip.DropsOnlyOwned | alembic/versions/138_campaign_data.py:1130-1207 | from any schema, only objects under an ownership comment of their own, their table's or their column's are removed |
| SchemaRoundTrip.RowsNeverConflict | alembic/versions/138_campaign_data.py:1115-1183 | the rows never refuse the restored constraint once the preflight has passed |
| SchemaDatabase.Database.EnsureTable | alembic/versions/138_campaign_data.py:263-278 | refuse an unowned table, validate an owned one, otherwise create and mark |
| SchemaDatabase.Database.EnsureIndex | alembic/versions/138_campaign_data.py:202-208 | create and mark only on an existing table without that index |
| SchemaDatabase.Database.AddOwnedColumn | alembic/versions/138_campaign_data.py:281-286 | true exactly when the column was missing; then it is added and marked |
| SchemaDatabase.Database.EnsureLink | alembic/versions/138_campaign_data.py:929-948 | the foreign key is added only with the column |
| SchemaDatabase.Database.EnsureUniqueConstraint | alembic/versions/138_campaign_data.py:289-296 | the guarded unique constraint |
| SchemaDatabase.Database.EnsureScopedForeignKey | alembic/versions/138_campaign_data.py:299-323 | the guarded composite foreign key |
| SchemaDatabase.Database.Upgrade138 | alembic/versions/138_campaign_data.py:326-1098 | the upgrade completes, or stops at its first refused unit with all earlier ones done |
| SchemaDatabase.Database.Downgrade138 | alembic/versions/138_campaign_data.py:1101-1207 | a preflight refusal leaves the schema as it was; a later one stops with exactly the earlier units done; in every case only licensed objects are gone |
| SchemaNames.Layout138IsGood | alembic/versions/138_campaign_data.py:23-100 | the revision's own names and targets meet what the general theorems ask |
| SchemaNames.FollowsIsOk | alembic/versions/138_campaign_data.py:326-1098 | any plan with good names, whose tables hold only their own objects and point back, is one the theorems are about |
| SchemaNames.Revision138Theorems | alembic/versions/138_campaign_data.py:326-1207 | retry, round trip and refusals hold of every plan with the revision's names |
| SchemaPlan.MadeFits | alembic/versions/138_campaign_data.py:329-352 | a table made from columns and keys holds only its own objects, and its foreign keys point at earlier or older tables |
| SchemaPlan.WaveRepairs | alembic/versions/138_campaign_data.py:605-688 | the repairs of an interrupted campaign_waves stay on that table and point at earlier or older tables |
| SchemaPlan.Revision138 | alembic/versions/138_campaign_data.py:326-1098 | the plan written out, with all fifteen tables, links, switches, indexes, unique constraints and foreign keys, is such a plan |
| EndpointBackfill.KeepsFlagIff | alembic/versions/138_campaign_data.py:360-374 | a primary stays primary if and only if no primary of its key was seen later, nulls last, or equally late with a higher id |
| EndpointBackfill.OneSurvivor | alembic/versions/138_campaign_data.py:360-381 | each key with a primary keeps exactly one, and a table already so is untouched |
| EndpointBackfill.RepairsAreOk | alembic/versions/138_campaign_data.py:719-741 | the endpoint and the sender repair are both instances, given distinct ids |
| EndpointFacts.PrimaryStaysIff | alembic/versions/138_campaign_data.py:360-374 | a primary endpoint stays primary exactly when no other primary of its project, contact and kind was seen later, or, equally late or both never, has a higher id; no other column changes |
| EndpointFacts.DefaultStaysIff | alembic/versions/138_campaign_data.py:719-741 | a default sender stays default exactly when no other default of its project and channel was updated later, or, equally late or both never, has a higher id |
| EndpointBackfill.InsertKeepsOnePrimary | alembic/versions/138_campaign_data.py:1009-1053 | an insert from users keeps at most one primary per key |
| EndpointBackfill.InsertKeepsHashes | alembic/versions/138_campaign_data.py:1030-1053 | an insert keeps the hash constraint |
| EndpointBackfill.InsertCovers | alembic/versions/138_campaign_data.py:1009-1053 | every selected user ends with an endpoint for its hash |
| EndpointBackfill.PrimaryAfterIff | alembic/versions/138_campaign_data.py:1015-1030 | a selected user has a primary afterwards if and only if it had one or had no endpoint with that hash |
| EndpointFacts.AddedRowsAre | alembic/versions/138_campaign_data.py:1009-1053 | the rows an insert adds, column by column: primary unless the contact had a primary of that kind before the statement, last seen when the contact was updated or now, ids in sequence |
| EndpointFacts.EmailsInFull | alembic/versions/138_campaign_data.py:1009-1031 | a contact gets an email row exactly when its trimmed address is not empty and no row of it had its hash |
| EndpointFacts.PhonesInFull | alembic/versions/138_campaign_data.py:1032-1054 | a contact gets a phone row, with the normalised number first, exactly when that is not blank and no row of it had its hash |
| EndpointBackfill.OneMatch | alembic/versions/138_campaign_data.py:1057-1068 | no state has a choice of endpoints |
| EndpointBackfill.LinkKeepsIff | alembic/versions/138_campaign_data.py:990-1068 | linking keeps the legacy index always, and the endpoint index if and only if no unlinked state's endpoint is already taken |
| EndpointBackfill.FreshLinksAreSafe | alembic/versions/137_contact_verify.py:113 | under the constraint of 137 linking violates neither index |
| EndpointFacts.StateIs | alembic/versions/138_campaign_data.py:1057-1069 | a linked state stays; another gets the one endpoint of its project, contact, hash and kind ("phone" for "whatsapp"), or none if there is none; nothing else of it changes |
| EndpointFacts.TakenIff | alembic/versions/138_campaign_data.py:990-1069 | the links clash exactly when the endpoint of an unlinked state is one that a linked state of the same project and kind has |
| EndpointBackfill.Rows.KeepOne | alembic/versions/138_campaign_data.py:356-381 | after the two repairs both partial unique indexes can be created |
| EndpointBackfill.Rows.InsertEndpoints | alembic/versions/138_campaign_data.py:1005-1053 | the two inserts in order keep ids, hashes and primaries unique |
| EndpointBackfill.Rows.LinkStates | alembic/versions/138_campaign_data.py:1055-1068 | the statement fails exactly when an endpoint is taken, and then changes nothing |
| MesBackfill.CreatedIsBlocks | scripts/backfill_mes.py:55-76 | the loop creates the even blocks of the missing list and leaves the odd ones |
| MesBackfill.CreationCoverage | scripts/backfill_mes.py:52-78 | the log at index i gets a row if and only if i / B is even, the exact count, and completeness if and only if at most B are missing |
| MesBackfill.RunsNeededIff | scripts/backfill_mes.py:35-78 | k runs are complete if and only if at most (2^k - 1) B logs were missing |
| MesStore.CommitCuts | scripts/backfill_mes.py:40-74 | a committed batch disappears from the query, and only it |
| MesStore.CreatedRowsAreExact | scripts/backfill_mes.py:55-76 | which logs of the initial query have a score afterwards |
| MesFacts.MissingIs | scripts/backfill_mes.py:40-53 | the query returns exactly the logs that are not "queued", not before the cutoff, of the asked project, and without a score, by ascending id |
| MesFacts.CreationIs | scripts/backfill_mes.py:35-78 | the scores after the loop: the old ones as they were; then scores of such logs, with each column as the log has it or "unknown", for exactly the logs whose number of earlier ones falls in an even batch |
| MesStore.CreationLeaves | scripts/backfill_mes.py:55-76 | from any point of the loop, what it creates leaves exactly the odd blocks missing |
| MesStore.RunsCompleteIff | scripts/backfill_mes.py:35-78 | on the tables: after k runs every wanted log has a score if and only if at most (2^k - 1) B had none |
| MesScript.Backfill.CreateMissingRecords | scripts/backfill_mes.py:35-78 | the loop with its growing offset creates exactly those rows and returns their number |
| MesScoring.TouchIsSkipped | app/services/scoring/mes_engine.py:94-102 | computing an external touch neither raises nor clears its mark |
| MesScoring.PassCommits | scripts/backfill_mes.py:110-130 | computing one batch takes away exactly the scores that clear |
| MesScoring.TerminatesIff | scripts/backfill_mes.py:109-132 | the scoring loop ends if and only if every stale score clears |
| MesScoring.EndsComplete | scripts/backfill_mes.py:106-132 | whenever it ends, computed is the initial number of stale scores and no error was counted |
| MesScoring.CleanPasses | scripts/backfill_mes.py:109-132 | when every score clears each pass is one whole batch |
| MesScoring.ScoredIff | scripts/backfill_mes.py:110-130 | a score leaves the stale list if and only if computing it clears it and fewer stuck scores than a batch stand before it |
| MesScoring.ComputedIs | scripts/backfill_mes.py:119-130 | computed exceeds what left the stale list by exactly the number of times a score was skipped |
| MesScoring.TouchNeverEnds | scripts/backfill_mes.py:40-76 | one external touch in a created block is enough: the loop never ends, and if nothing raises errors stay zero while computed grows with every pass |
| MesScoring.MarkedIsWholeProject | scripts/backfill_mes.py:81-89 | afterwards the scoring query returns one score for each score of the project, in order, and other projects' scores are untouched |
| MesFacts.MarkingIs | scripts/backfill_mes.py:81-89 | score by score: marked if it is of the asked project, where none and 0 ask for all, and as it was otherwise |
| MesFacts.PassIs | scripts/backfill_mes.py:109-130 | score by score, one pass: the mark goes exactly if it is stale, of the asked project, among the first batch of such, and its log is there, is no "external_touch" and does not raise |
| MesFacts.ScoringIs | scripts/backfill_mes.py:92-132 | over any number of passes a score that is not stale, of another project, of a touch or of a log that raises is as it was, and of another only the mark can go |
| MesFacts.CountersAre | scripts/backfill_mes.py:119-130 | over any number of passes the two counters together are the number of calls, and the errors are the calls whose log is there, is no touch and raises |
| MesScript.Backfill.MarkAllStale | scripts/backfill_mes.py:81-89 | the returned count is the number of scores the scoring query then returns, which are the project's |
| MesScript.Backfill.ComputeBatch | scripts/backfill_mes.py:119-130 | calls that return count as computed, calls that raise as errors, and the marks of those that clear are gone |
| MesScript.Backfill.ComputeScores | scripts/backfill_mes.py:92-132 | after any number of passes the scores, both counters and the stale list are those of that many passes |
| Quarantine.StaysActiveIff | alembic/versions/129_meta_page_uq.py:49-76 | a row stays active if and only if no other active row shares its page or its non-null account |
| Quarantine.IndexesHold129 | alembic/versions/129_meta_page_uq.py:83-94 | both unique indexes can be created, and a second run changes nothing |
| QuarantineFacts.PageIs | alembic/versions/129_meta_page_uq.py:41-76 | row by row: an active row whose page, or non-null account, another active row has becomes inactive, "quarantined", with the message; any other stays |
| Quarantine.Pages.Upgrade | alembic/versions/129_meta_page_uq.py:41-81 | the returned rows are exactly the quarantined ones |
| Quarantine.HandlerIsNewest | alembic/versions/130_wa_meta_proj.py:49-59 | the project is that of a newest whatsapp link, even when that link has none |
| QuarantineFacts.HandlerIs | alembic/versions/130_wa_meta_proj.py:49-59 | the project found is that of the newest whatsapp link's handler, a chatbot looked up among the chatbots and an agent_team among the teams |
| QuarantineFacts.OnlyIs | alembic/versions/130_wa_meta_proj.py:77-92 | the other source is the one active project of the workspace, if there is exactly one |
| Quarantine.PhonesStayIff | alembic/versions/130_wa_meta_proj.py:118-142 | an instance stays active if and only if no other active Meta instance has its phone |
| Quarantine.After130 | alembic/versions/130_wa_meta_proj.py:41-148 | every active Meta instance has a project and a phone of its own; other providers and set projects are untouched |
| Quarantine.Again130 | alembic/versions/130_wa_meta_proj.py:35-148 | a second run changes nothing |
| QuarantineFacts.InstanceIs | alembic/versions/130_wa_meta_proj.py:35-142 | row by row: a Meta instance without a project gets the one found so or none; an active one that ends without, or on PostgreSQL shares its phone with another active one that has a project, is inactive and "disconnected"; nothing else changes |
| QuarantineFacts.StrandedAre | alembic/versions/130_wa_meta_proj.py:98-112 | the rows returned by the third statement are the active Meta instances that end without a project |
| QuarantineFacts.SharersAre | alembic/versions/130_wa_meta_proj.py:118-142 | those returned by the fourth are the active ones with a project that share their phone |
| Quarantine.ReportPredicts | scripts/report_wa_meta_projects.py:21-69 | the report names the project the migration will set, and says ambiguous exactly for the rows that end without one and inactive |
| Quarantine.ReportTotal | scripts/report_wa_meta_projects.py:58-76 | its total is the number of Meta instances left without a project |
| QuarantineFacts.VerdictIs | scripts/report_wa_meta_projects.py:27-67 | the verdict: the newest link's project; else that the workspace has one active project; else ambiguous, with their number |
| QuarantineFacts.ReportIs | scripts/report_wa_meta_projects.py:43-76 | the report lists exactly the Meta instances without a project, by id, and its total is the number of those left so |
| Quarantine.DeactivatedIff | alembic/versions/130_wa_meta_proj.py:98-142 | exactly the active Meta instances without a source of a project are deactivated, and on PostgreSQL those that share a phone with another active one that has a project |
| Quarantine.PromiseKeptIff | scripts/report_wa_meta_projects.py:63-73 | the printed quarantine is carried out exactly for active rows; rows with another verdict are deactivated exactly when they share a phone |
| Quarantine.ReportBalance | scripts/report_wa_meta_projects.py:58-76 | the printed total is the number of rows the two quarantines return if and only if there are as many idle ambiguous rows as phone duplicates |
| Quarantine.Instances.Upgrade | alembic/versions/130_wa_meta_proj.py:35-142 | the four statements in order give that result, and the two quarantining ones return the rows counted above |
| Quarantine.Instances.Report | scripts/report_wa_meta_projects.py:50-77 | one verdict per row, the total, and the exit status |
| PhoneRename.AssignKeys | scripts/renormalize_phones.py:84-106 | assigning into the map keeps keys distinct and the last value wins |
| PhoneRename.CollectFacts | scripts/renormalize_phones.py:84-106 | the map gives each key what its last user gave it, and every entry is a change |
| RenameFacts.FixedIs | scripts/renormalize_phones.py:86-116 | a user with a phone gets the number and status of its phone under its project's country code today, another stays; nothing else of it changes |
| RenameFacts.CountryIs | scripts/renormalize_phones.py:34-52 | the country code is that of the first active instance of the project's workspace that has one |
| RenameFacts.ChangedCount | scripts/renormalize_phones.py:84-119 | the first counter is the number of users that an apply changes, the second the number of the others with a phone |
| RenameFacts.CollectedIs | scripts/renormalize_phones.py:100-106 | an entry from one number to another is there exactly if the last user of the project with the first one stored, and another to get, gets the second |
| PhoneRename.SequentialIsSimultaneousIff | scripts/renormalize_phones.py:125-189 | renaming entry by entry is the simultaneous substitution on every table if and only if no entry starts where an earlier one of its project ends |
| RenameFacts.RowIs | scripts/renormalize_phones.py:125-189 | row by row: a row moves from the old to the new number of the last user that had it, if nobody of the project moves on from that; a row whose number nobody moves from stays |
| PhoneRename.CountsAgreeIff | scripts/renormalize_phones.py:125-189 | the dry run never announces more than is done, and exactly that if and only if no row stands at the start of a chain |
| RenameFacts.AnnouncedAre | scripts/renormalize_phones.py:132-176 | the dry run announces the number of rows whose number someone of their project moves from |
| PhoneRename.SecondApply | scripts/renormalize_phones.py:86-116 | a second apply skips every user and renames nothing |
| PhoneRename.Script.FallbackFor | scripts/renormalize_phones.py:34-52 | the cached look-up returns what an uncached one would |
| PhoneRename.Script.RenormalizeUsers | scripts/renormalize_phones.py:84-119 | the loop collects the map, fixes the users only on apply, and its two counters cover the selected users |
| PhoneRename.Patch | scripts/renormalize_phones.py:125-189 | the loop of both phases: renamed rows and applied count, or unchanged rows and dry count |
| PhoneRename.Script.PatchRouting | scripts/renormalize_phones.py:122-150 | the routing table and the count, dry or applied |
| PhoneRename.Script.PatchSessions | scripts/renormalize_phones.py:152-188 | the session table and the count, dry or applied |
| PhoneRename.Script.Renormalize | scripts/renormalize_phones.py:55-199 | a dry run changes nothing; an apply without chains is the substitution and its counts are the dry run's |

## Left out

- Prepare.Database.Run: does not model EngineRolloutService, feature activation and the resolution of the actor and project; the dependency errors are a parameter.
- ConsentPlan.PlanConsent: the JSON of the attestation is not modelled; it affects no decision.
- LedgerParity.WrittenRow: the database's own column widths are not modelled; the 30-character limit the planner tests is.
- LedgerParity.EngineMatchedIff: states the join alone; which logs the engine expects, its window and its ratio are in LedgerEngine.RatioIsOneIff.
- ConsentReplay.ReadinessAfter: the delivery-profile counts of the report are not modelled; the apply phase does not touch them.
- Redactor.SensitiveIsWellFormed: of Unicode case folding only the characters that fold into the letters of the five names are modelled.
- LogFilter.LogRecord.Emit: the `%` formatting that follows the filter is not modelled, so nothing is said of a secret assembled by it.
- FunnelCompiler.FillSlotsFills: uuid4 is a source of fresh ids and uuid5 an injective function of its name (section 4.3 of RFC 4122); their digits are not modelled.
- FunnelStore.Connection.CompileEventAction: surrogate ids of step rows, and enrolments that may refer to them, are not modelled.
- FunnelCompiler.CompiledMeaning: the machine that runs the steps is an independent definition; the funnel scheduler itself is not part of this model.
- Leadership.AtMostOneActive: assumes that the database frees the lock only when the session that took it is gone; a lost connection of a live process is not modelled.
- SchemaDatabase.Database.Upgrade138: the constraint checks that existing rows can fail, transactional rollback, and the row statements between the units are not modelled; the row statements are in EndpointBackfill.
- SchemaRoundTrip.RoundTripIff: column types and defaults are opaque text, implied indexes of constraints are not modelled, nor is that a foreign key needs a unique constraint it can lean on; SchemaRefusals.KeysGoFirst states the order that this asks of the downgrade. That the upgrade succeeds is a hypothesis; SchemaRefusals.UpgradeNeeds states what it demands of the tables, SchemaFacts.UpgradeSucceeds when it does.
- SchemaNames.Revision138Theorems: asks only for the names, so the columns and indexes inside the tables may be any; SchemaPlan.Revision138 is the plan with the real ones.
- SchemaDatabase.Database.Downgrade138: the rollback of the transaction around it is not modelled, so after a late refusal the model shows the units done so far.
- EndpointBackfill.Rows.LinkStates: the like statement over verification items, which no unique rule covers, is not modelled.
- EndpointBackfill.InsertCovers: lower-casing into `normalized_value` and the copied timestamps other than the last-seen one are not modelled.
- MesScript.Backfill.ComputeScores: the script's loop has no limit; the limit is how long it is watched. The scores themselves are not modelled; which logs the pipeline raises for is an arbitrary fixed set, and a commit that fails is not modelled.
- Quarantine.HandlerIsNewest: ties of `created_at`, which both queries leave open, are broken by id, alike in both.
- PhoneRename.Script.Renormalize: the normaliser is an arbitrary function of the raw phone and the fallback code; unique constraints on the two tables are not modelled, and sessions are reduced to their project scope.
- Migration 139, which repeats 138's ownership pattern, the table-creation migrations, seed data, routers, CORS and file serving.
