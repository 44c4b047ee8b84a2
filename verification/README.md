# Verified models of the Stack62 services

This project models the stateful algorithms at the core of the Stack62 back end and proves what
they promise. A repository or table is a map, a service with fields is a class, a loop that updates
variables is a method proved against a specification function, and the laws are lemmas about those
functions. Models, tools, the clock, the database and the operator are arguments that may answer
anything, so every statement holds for all of their behaviours. `dafny verify dfyconfig.toml` checks everything.

| file | models |
|---|---|
| `Base32.dfy`, `Totp.dfy` | the base32 codec on JavaScript's 32-bit integers and the one-time codes on top of it |
| `OrderedMerge.dfy`, `SystemDefinition.dfy`, `ChangePlan.dfy` | the algebra by which a plan is merged into a system definition |
| `KeyedDiff.dfy`, `DiffSelection.dfy`, `PartialApproval.dfy`, `UpdateDiff.dfy` | the differences of two definitions, the approval of a selection of them, and what an update's differences are |
| `DiffIds.dfy`, `SharedIds.dfy` | when differences have ids of their own, and what follows when they do not |
| `EngineEvents.dfy`, `Builds.dfy`, `BuildReports.dfy`, `CoworkerRuntime.dfy` | the event stream of a session; the delegated build with its repair loop, and the delegated schedule |
| `ToolRegistry.dfy`, `EngineTiers.dfy`, `FrontierLoop.dfy`, `Engine.dfy` | the tool registry and its scopes; an engine session: local tiers, response cache, frontier tool loop, the whole |
| `Rrule.dfy`, `Jobs.dfy` | recurrence rules, the job table, the runner's two ends, the single-flight dispatcher |
| `Scheduler.dfy`, `EarlyStarts.dfy` | the ticking scheduler, every interleaving, and the three that start a job too early |
| `Impact.dfy` | the impact report of a diff |
| `AuditCsv.dfy` | the CSV export, against a reader written from section 2 of RFC 4180 |
| `Captions.dfy` | the caption scraper with its flush timer |
| `BrowserPool.dfy`, `Payments.dfy`, `Documents.dfy` | the session pool, the payment ledger, document histories |

## Where the code does less than it says

Each of these is proved, with the exact condition where there is one.

- Until the first thirty seconds of 1970 are over, the previous step has no unsigned number, and
  `verify` throws a RangeError for every well-formed code instead of answering (`Totp.Verify`).
- "Retries are idempotent": redelivering a payment event changes nothing exactly when it is the last
  one recorded under its reference; a charge delivered again after its refund undoes the refund
  (`Payments.Redelivered`, `Payments.LateRetryUndoesRefund`).
- A document update with a null title or content makes a new version that repeats the one before
  (`Documents.UpdateKeepsConsistent`, `Documents.NullEchoes`).
- A tool run by a local tier or the cache whose result is a BigInt without a summary gets two
  `tool.result` events; this is the only way the pairing of calls and results fails there (`Engine.Run`).
  The result type of a tool admits such a value, though no tool under `src/modules/engine` returns one.
- A tool that is offered under a name the model sees can be refused under it: exactly if another tool with
  that name was registered later and is out of scope (`ToolRegistry.OfferedIsAllowed`).
- When a field changes its type and becomes required at once, the records without a value go unreported
  as soon as one record holds a value (`Impact.HarmIsReportedIff`).
- Two different caption lines can share a key if a speaker's name contains a colon, and the later one is
  lost (`Captions.ColonLosesLine`).
- A weekly INTERVAL counts only when today's slot has passed, so the next slot is skipped
  exactly then (`Rrule.WeeklySlotIsLeast`); a monthly rule spills over into the month after when
  the target month is too short (`Rrule.NextMonthlyDate`).
- A job stays marked running when a save at either end of its run fails, or when a user sets that
  status; otherwise never longer than its run is in flight (`Scheduler.Interleave`).
- The session pool holds max(1, max) sessions, and sessions whose page has closed still count
  (`BrowserPool.Pool.Ensure`).
- The caption scraper's comment speaks of the latest form of a line; the first one with its key is
  kept (`Captions.FirstByKeyIsFirst`).
- Re-applying a plan appends its views and dashboards once more (`ChangePlan.Reapplied`).
- Two plans in turn are their combination exactly when the first names no workflow or policy twice;
  nothing in the source rules such a repetition out (`ChangePlan.ComposesIffUnique`).
- A plan's keys may contain colons, and then two differences can share an id. No comparison with any
  definition does so exactly when no module key, and no joined path of module and entity, is another
  one followed by a colon and more (`DiffIds.IdsDistinctIffApart`). A plan with modules "aa", holding
  "bb:cc", and "aa:bb", holding "cc", does: one id selects both entities
  (`SharedIds.TwinsComeTogether`), and the totals of an impact report are more than the sums of its
  entries (`SharedIds.TotalsAreNotSums`).
- The timer can start a job again before its rule allows: after a run whose final save was lost and
  whose job was put back on schedule (`EarlyStarts.LostSaveStartsEarly`), after a start by hand that is
  over before a query that lists the job is answered (`EarlyStarts.HandStartEarly`), and likewise after
  any run that is over before a second query that lists it (`EarlyStarts.SlowAnswerStartsEarly`). Every
  other start keeps its gap (`Scheduler.Interleave`).
- The second pass of `applyDiffSelection` over added modules and entities never adds anything
  (`PartialApproval.SecondPassAddsNothing`).

## Model

| member | source | states |
|---|---|---|
| `Bits.Enter` | src/modules/admin/totp.service.ts:69-89 | shifting k fresh bits into the never-masked 32-bit accumulator keeps the bits that count and appends the new ones |
| `Bits.Leave` | src/modules/admin/totp.service.ts:72-92 | shifting right and masking reads exactly the k bits above the lowest n |
| `Bits.LeavePartial` | src/modules/admin/totp.service.ts:76 | the last partial group is filled up with zeros |
| `Base32.AlphabetLookup` | src/modules/admin/totp.service.ts:64-88 | the alphabet is that of RFC 4648, and letter arithmetic is indexing and searching in its string |
| `Base32.Base32Encode` | src/modules/admin/totp.service.ts:63-78 | the streaming loop equals section 6 of RFC 4648: concatenate the octets, pad with zero bits to a multiple of five, one letter per five bits |
| `Base32.EncodingLength` | src/modules/admin/totp.service.ts:63-78 | n octets make ceil(8n/5) letters |
| `Base32.Base32Decode` | src/modules/admin/totp.service.ts:80-97 | the streaming decoder yields exactly the whole octets in the bits of the upper-cased letters; spaces, padding and foreign characters carry none |
| `Base32.CleanCarriesTheSameBits` | src/modules/admin/totp.service.ts:82 | stripping padding and white space never changes the bits |
| `Base32.TypedIsClean` | src/modules/admin/totp.service.ts:82 | letters typed in either case, in groups and with trailing padding clean to the letters |
| `Base32.RoundTrip` | src/modules/admin/totp.service.ts:63-97 | decoding an encoding gives the octets back, for every buffer; leftover bits never make an octet |
| `Base32.CanonicalIffEncoding` | src/modules/admin/totp.service.ts:63-97 | re-encoding what a string decodes to gives the string exactly when it is canonical: letters only, fewer than five bits left over, all zero |
| `Totp.MessageNamesCounter` | src/modules/admin/totp.service.ts:51-52 | no two counters share an eight-octet message |
| `Totp.WordBits` | src/modules/admin/totp.service.ts:55-59 | the shifts and ors put the four octets side by side |
| `Totp.TruncatedIsBigEndian` | src/modules/admin/totp.service.ts:54-59 | section 5.3 of RFC 4226: the low half of the last octet names an offset, and the value is the 31-bit number that the four octets from there on write, most significant first |
| `Totp.PaddedNumeral` | src/modules/admin/totp.service.ts:60 | `toString` then `padStart` is the numeral with exactly six digits |
| `Totp.CodeNamesValue` | src/modules/admin/totp.service.ts:60 | a code's digits denote the truncated value modulo a million |
| `Totp.SixDigits` | src/modules/admin/totp.service.ts:60 | six digits name the number they write in base ten |
| `Totp.ValueOfDigest` | src/modules/admin/totp.service.ts:53-60 | the digits of a code name the number the last octet of the digest points at, modulo a million |
| `Totp.Generate` | src/modules/admin/totp.service.ts:49-61 | six digits that name that number for the digest of the decoded key and the eight octets of the counter; a negative counter throws |
| `Totp.Verify` | src/modules/admin/totp.service.ts:39-47 | from thirty seconds after the epoch on, true exactly for the codes of the current half minute and its two neighbours; before that a well-formed code throws |
| `Totp.SecretKeepsKey` | src/modules/admin/totp.service.ts:19-21 | a generated secret, and whatever cleans to it, decodes to the octets it was made from |
| `Totp.TypedSecretKeepsKey` | src/modules/admin/totp.service.ts:80-97 | also when it is typed in lower case, in groups or with padding |
| `Totp.SkewTolerated` | src/modules/admin/totp.service.ts:36-45 | a code made within one step of the check is accepted |
| `SystemDefinition.MergeModules` | src/modules/ai/ai.service.ts:681-716 | the nested Map loops equal the three-level ordered merge |
| `SystemDefinition.MergeEntities` | src/modules/ai/ai.service.ts:692-709 | the inner loops equal the two-level ordered merge |
| `SystemDefinition.MergeByKey` | src/modules/ai/ai.service.ts:718-734 | the overwrite-or-push loop equals an ordered override, duplicates included |
| `SystemDefinition.PolicyKeyNames` | src/modules/ai/ai.service.ts:619-623 | policies merge exactly when role, resource type, scope and name agree, as long as the first three have no colon |
| `SystemDefinition.MergedModulesUnique` | src/modules/ai/ai.service.ts:681-716 | unique keys at every level stay unique |
| `SystemDefinition.MergeModulesAssociative` | src/modules/ai/ai.service.ts:681-716 | merging two plans in turn into any base is merging their merge: same modules, entities, fields, order and metadata |
| `SystemDefinition.MergeModulesIdentity` | src/modules/ai/ai.service.ts:681-716 | the empty list is an identity on both sides |
| `SystemDefinition.MergeModulesIdempotent` | src/modules/ai/ai.service.ts:681-716 | merging a plan into any base again changes nothing |
| `SystemDefinition.FieldAtMerged` | src/modules/ai/ai.service.ts:685-715 | under every path of keys stands the plan's field if it has one, else the base's |
| `SystemDefinition.MergeKeepsOrderAndMetadata` | src/modules/ai/ai.service.ts:685-715 | for modules, entities and fields alike: old keys keep their places and new ones follow in plan order; known modules and entities keep their metadata |
| `OrderedMerge.KeysMerge` | src/modules/ai/ai.service.ts:685-715 | the key order of any such merge |
| `OrderedMerge.GetMerge` | src/modules/ai/ai.service.ts:685-715 | what any such merge holds under a key |
| `OrderedMerge.MergeAssociative` | src/modules/ai/ai.service.ts:685-715 | a merge is associative wherever joining is |
| `OrderedMerge.KeysOverride` | src/modules/ai/ai.service.ts:723-733 | no key is lost or moved; unmatched keys follow once each, in order of first mention |
| `OrderedMerge.GetOverride` | src/modules/ai/ai.service.ts:723-733 | the first match of a key ends as the plan's last item with it |
| `OrderedMerge.LaterMatchesKept` | src/modules/ai/ai.service.ts:726-728 | only the first match changes |
| `OrderedMerge.OverrideIdempotent` | src/modules/ai/ai.service.ts:718-734 | re-merging the same plan is a no-op, for arbitrary lists |
| `OrderedMerge.OverrideComposes` | src/modules/ai/ai.service.ts:718-734 | lists merged in turn are their combination, for every base and every second list, when the first list repeats no key |
| `OrderedMerge.RepetitionDecomposes` | src/modules/ai/ai.service.ts:718-734 | with a key repeated in the first list they are not |
| `ChangePlan.BuildAfterDefinition` | src/modules/ai/ai.service.ts:562-633 | a new system is the plan as read and nothing else; any other plan keeps the profile, appends views and dashboards, and merges the rest by key |
| `ChangePlan.PlanIsRead` | src/modules/ai/ai.service.ts:658-679 | an unknown data type becomes text and an unknown view type a table; reading twice is reading once |
| `ChangePlan.ModuleIsRead` | src/modules/ai/ai.service.ts:635-668 | everything else of a module, its entities and fields is taken over as it is |
| `ChangePlan.ReadingKeepsUnique` | src/modules/ai/ai.service.ts:635-668 | reading a plan keeps keys unique at every level |
| `ChangePlan.Reapplied` | src/modules/ai/ai.service.ts:613-632 | applying again repeats views and dashboards and nothing else, so it is a no-op exactly when there are none |
| `ChangePlan.AppliedInTurn` | src/modules/ai/ai.service.ts:613-632 | two plans in turn, applied to any definition, are their combination, to the last detail, when the first names no workflow or policy twice |
| `ChangePlan.ComposesIffUnique` | src/modules/ai/ai.service.ts:613-632 | that premise is exactly what it takes for every later plan and every definition |
| `ChangePlan.ValidateUniqueKeys` | src/shared/system-definition/system-definition.schema.ts:122-153 | reports no issue exactly when keys are unique at every level |
| `KeyedDiff.Compare` | src/shared/system-definition/system-definition.diff.ts:357-405 | one pair of comparison loops yields the removals, then additions and changes in the plan's order |
| `KeyedDiff.DifferencesAre` | src/shared/system-definition/system-definition.diff.ts:357-405 | what exactly is among the differences of two lists |
| `KeyedDiff.ApplyAll` | src/shared/system-definition/system-definition.diff.ts:593-607 | the loop over one list of items is the fold of single patches |
| `KeyedDiff.PatchedHolds` | src/shared/system-definition/system-definition.diff.ts:516-623 | after any selection each key holds what was selected for it; kept keys keep their order, added ones follow |
| `KeyedDiff.PatchedWhole` | src/shared/system-definition/system-definition.diff.ts:542-623 | with everything selected the list is the plan's exactly when the plan keeps known keys first and in order |
| `DiffSelection.DiffSystemDefinition` | src/shared/system-definition/system-definition.diff.ts:214-458 | the nested loops yield the differences of modules, of each module's entities, of each entity's fields, of workflows and policies |
| `DiffSelection.IdsSpelled` | src/shared/system-definition/system-definition.diff.ts:182-205 | the ids by which a client selects differences |
| `DiffSelection.ApplyDiffSelection` | src/shared/system-definition/system-definition.diff.ts:501-630 | the nine loops are patches of modules, entities and fields, two filling passes, and patches of workflows and policies |
| `DiffSelection.EntityIdNames` | src/shared/system-definition/system-definition.diff.ts:185-191 | an id names one entity difference when neither module key is the other followed by a colon and more |
| `DiffSelection.FieldIdNames` | src/shared/system-definition/system-definition.diff.ts:192-199 | an id names one field difference when neither module key and neither path is the other followed by a colon and more |
| `DiffIds.DifferenceKeys` | src/shared/system-definition/system-definition.diff.ts:357-405 | each key is the key of one difference at most, whatever the lists |
| `DiffIds.IdsAreDistinct` | src/shared/system-definition/system-definition.diff.ts:182-205 | no two differences between any definition and the plan's share an id, when the plan's module keys and paths are apart |
| `DiffIds.ModuleKeyClash` | src/shared/system-definition/system-definition.diff.ts:185-191 | with one module key under another, some definition has two removals with one id |
| `DiffIds.PathClash` | src/shared/system-definition/system-definition.diff.ts:192-199 | with one path of module and entity under another, likewise |
| `DiffIds.IdsDistinctIffApart` | src/shared/system-definition/system-definition.diff.ts:182-205 | ids are distinct against every definition if and only if the plan's module keys and paths are apart |
| `DiffIds.ColonFreeIsApart` | src/shared/system-definition/system-definition.schema.ts:33-52 | the keys the definition schema admits are apart |
| `SharedIds.OneIdSelectsBoth` | src/shared/system-definition/system-definition.diff.ts:528-540 | two new entities with one id are selected together or not at all |
| `SharedIds.TwinsComeTogether` | src/modules/ai/schemas/change-plan.schema.ts:11-25 | a plan the change-plan schema admits whose two new entities come together by one id |
| `SharedIds.TotalsAreNotSums` | src/modules/ai/ai-impact.service.ts:49-65 | a plan that adds a required field to two such entities with records: the totals are not the sums of the entries |
| `SharedIds.ReportImpact` | src/modules/ai/ai.service.ts:450-466 | the totals of the report of a diff are the sums exactly when no entry that counts is overwritten; with ids apart they always are, and there is one entry for each difference |
| `UpdateDiff.UpdatesRemoveNothing` | src/modules/ai/ai.service.ts:613-632 | the differences between any definition and any plan merged into it hold no removal at any level |
| `UpdateDiff.UpdatesChargeFields` | src/modules/ai/ai-impact.service.ts:115-280 | so the totals of an update's impact report are those of its field additions and changes |
| `PartialApproval.NothingSelected` | src/shared/system-definition/system-definition.diff.ts:501-630 | selecting no difference keeps modules, workflows and policies; profile, views and dashboards come from the plan |
| `PartialApproval.EntityHolds` | src/shared/system-definition/system-definition.diff.ts:528-558 | the entities, their order and their fields after any selection |
| `PartialApproval.ModuleHolds` | src/shared/system-definition/system-definition.diff.ts:516-558 | the modules, their order and their entities after any selection |
| `PartialApproval.FieldSelected` | src/shared/system-definition/system-definition.diff.ts:516-558 | what a selection leaves under any path of module, entity and field, each level deciding in turn |
| `PartialApproval.SecondPassAddsNothing` | src/shared/system-definition/system-definition.diff.ts:560-591 | the pass that copies children of added modules and entities never finds anything to add |
| `PartialApproval.EverythingSelected` | src/shared/system-definition/system-definition.diff.ts:501-640 | selecting every difference gives exactly the plan, if and only if the plan keeps known keys, order and metadata |
| `PartialApproval.ApprovingAllIsApplying` | src/modules/ai/ai.service.ts:323-337 | approving every difference of a merged plan is applying the plan whole |
| `EngineEvents.ReadTwice` | src/modules/engine/engine.service.ts:722-744 | a second result for a call breaks the discipline for good |
| `EngineEvents.LinesJoin` | src/modules/engine/engine.service.ts:560-565 | texts joined by line feeds: one between two, none elsewhere |
| `Builds.UpAndDown` | src/modules/engine/coworker-runtime.service.ts:424-450 | a deployment comes up when the first poll that shows it settled shows it running, and down when that shows anything else or none does before the time is up |
| `Builds.PollsTell` | src/modules/engine/coworker-runtime.service.ts:424-450 | waiting for it yields a running deployment exactly in the first case |
| `Builds.ErrorIsTold` | src/modules/engine/coworker-runtime.service.ts:150-151 | the error of a failed attempt: the deployment's own, else its status, or that the time was up |
| `Builds.PromptIsSpelled` | src/modules/engine/coworker-runtime.service.ts:401-421 | a repair prompt is the request's, then that error and the last eighty lines of the logs |
| `Builds.SystemIsChosen` | src/modules/engine/coworker-runtime.service.ts:55-58 | the session's system, else the latest, else a new one |
| `Builds.ThreeRounds` | src/modules/engine/coworker-runtime.service.ts:77-118 | the states of up to three attempts, only the first of which is no repair |
| `CoworkerRuntime.Runtime.Look` | src/modules/engine/coworker-runtime.service.ts:361-365 | the flag the build reads is up exactly if stop was pressed before |
| `CoworkerRuntime.Runtime.WaitForDeployment` | src/modules/engine/coworker-runtime.service.ts:424-450 | polling ends with the first settled answer, the time-out, or the stop |
| `CoworkerRuntime.Runtime.RepairLoop` | src/modules/engine/coworker-runtime.service.ts:67-178 | at most three attempts, each at the same system, from the right prompt, and none begun after a stop; success only when a deployment came up; the states told are those of the attempts |
| `CoworkerRuntime.Runtime.RunBuild` | src/modules/engine/coworker-runtime.service.ts:41-199 | one terminal event, last, unless the operator's stop ended the build; ready exactly when no error ended it and the last attempt's deployment came up, all before having come down; undisturbed, exactly when one of the first three comes up; what the user is told and every state the operation goes through; the operation is always released |
| `CoworkerRuntime.Runtime.RunSchedule` | src/modules/engine/coworker-runtime.service.ts:207-291 | the error or success of a schedule request, in that order of checks, and what the user is told of it |
| `CoworkerRuntime.Runtime.Stop` | src/modules/engine/coworker-runtime.service.ts:201-205 | raises the flag of an operation exactly while it is registered; `Look` reads that flag |
| `BuildReports.Caught` | src/modules/engine/coworker-runtime.service.ts:179-195 | the stop ends in a message, any other error in session.error |
| `EngineTiers.ToolTrace` | src/modules/engine/engine.service.ts:213-275 | a tool outside the frontier loop gets one result, except that a BigInt without a summary gets two |
| `EngineTiers.OutputsAreTold` | src/modules/engine/engine.service.ts:784-789 | the reply made of each kind of result, and its serialization |
| `EngineTiers.RouteLocally` | src/modules/engine/engine.service.ts:173-281 | settles the session exactly for a direct reply or a tool whose result can be told, tells that and nothing else, and remembers replies and tools that only read |
| `EngineTiers.ReplayFromCache` | src/modules/engine/engine.service.ts:703-756 | a reply is repeated verbatim, a tool run afresh and its result told; one terminal event either way |
| `ToolRegistry.LastRegistered` | src/modules/engine/tools/registry.ts:82-87 | each name, own or external, belongs to the last tool registered with it |
| `ToolRegistry.InternalTwice` | src/modules/engine/tools/registry.ts:126-131 | resolving a name twice is resolving it once, whatever names collide |
| `ToolRegistry.AllowedIffInScope` | src/modules/engine/tools/registry.ts:126-162 | a scope judges the very tool that is run: a reader for read-only, a prefix of its own name for an allowlist |
| `ToolRegistry.OfferedIsAllowed` | src/modules/engine/tools/registry.ts:107-123 | a tool offered under a scope may be used under the offered name exactly unless a later one took that name and is out of scope |
| `ToolRegistry.Registry.Register` | src/modules/engine/tools/registry.ts:82-87 | the two tables after registering more tools |
| `FrontierLoop.UseTool` | src/modules/engine/engine.service.ts:593-665 | a denied, failing or unprintable tool is still answered, as an error that says so, under the use's own id; dispatched exactly when the tool run under that name is within the scope |
| `FrontierLoop.UseTools` | src/modules/engine/engine.service.ts:586-665 | each use is answered with what its own dispatch came to, in order; exactly the uses in scope are dispatched; nothing is told in between |
| `FrontierLoop.TakeTurn` | src/modules/engine/engine.service.ts:536-668 | the trimmed text of the completion is told first, unless nothing is left of it; another turn follows exactly when the model stopped for tools and named one, with its own completion and all answers |
| `FrontierLoop.TextsInOrder` | src/modules/engine/engine.service.ts:557-565 | the text of a completion is that of its text blocks, in order |
| `FrontierLoop.UsesInOrder` | src/modules/engine/engine.service.ts:575-584 | its tool uses are the tool blocks, in order |
| `FrontierLoop.Frontier` | src/modules/engine/engine.service.ts:524-695 | each call shows the model what the last one did, its completion and the answers; the loop ends exactly when nothing is asked or turns run out; the user is told the texts of all completions, every use is reported once, and those in scope are run, no others |
| `Engine.Answer` | src/modules/engine/engine.service.ts:308-524 | a usable local answer ends the session, an exhausted budget ends it with a notice, and the frontier model is asked exactly otherwise; what the user is told in each case |
| `Engine.EscalatesExactly` | src/modules/engine/engine.service.ts:133-524 | when exactly the paid model is asked |
| `Engine.Run` | src/modules/engine/engine.service.ts:133-696 | over all collaborators: one terminal event and last unless stopped or rejected outside a try; calls and results pair up exactly when no BigInt stumbles; the user hears the local answer, what the cache replays, the notice, or all the model says; a read-only session runs readers only, an allowlist what is on it, and all of that; what a delegate completes; what is remembered |
| `Rrule.NextWeekly` | src/modules/coworker/job-runner.service.ts:202-223 | the Date manipulation lands on the weekly slot |
| `Rrule.WeeklySlotIsNext` | src/modules/coworker/job-runner.service.ts:207-222 | strictly later, right weekday and time; 7 * INTERVAL days on when today's slot has passed |
| `Rrule.WeeklySlotIsLeast` | src/modules/coworker/job-runner.service.ts:219-221 | no slot is skipped exactly when INTERVAL is one or today's slot has not passed |
| `Rrule.MonthIsUnique` | src/modules/coworker/job-runner.service.ts:182-186 | the calendar's months partition the days |
| `Rrule.NextMonthlyDate` | src/modules/coworker/job-runner.service.ts:182-186 | keeps time and day of month whenever the target month has that day, else spills over into the next |
| `Rrule.YearStart` | src/modules/coworker/job-runner.service.ts:182-186 | the calendar is the Gregorian one: the day every year since 1970 begins, in closed form |
| `Rrule.MonthDays` | src/modules/coworker/job-runner.service.ts:182-186 | the days of each month |
| `Rrule.NextIsExact` | src/modules/coworker/job-runner.service.ts:170-181 | minutes, hours, days and weeks are 60000, 3600000, 86400000 and 604800000 milliseconds, and INTERVAL counts them, at least one |
| `Rrule.WeeklyIsExact` | src/modules/coworker/job-runner.service.ts:202-223 | the day and time of the next weekly run, counted from Thursday 1 January 1970 |
| `Rrule.MonthlyIsExact` | src/modules/coworker/job-runner.service.ts:182-186 | the date of the next monthly run |
| `Rrule.GapIsExact` | src/modules/coworker/job-runner.service.ts:162-190 | the gap every spacing law counts in, in milliseconds |
| `Rrule.NextIsLater` | src/modules/coworker/jobs.service.ts:332-359 | a next run exists exactly for supported frequencies, later by at least that gap |
| `Jobs.SettledJob` | src/modules/coworker/job-runner.service.ts:119-141 | what a finished run leaves: failed, completed or waiting by kind of job, error and rule, never running; a waiting schedule job is due after its gap; the rest as it was |
| `Jobs.NextRunIs` | src/modules/coworker/jobs.service.ts:310-330 | a schedule job follows its rule, or runs once at its time, or a second from now if that has passed unused |
| `Jobs.JobTable.Create` | src/modules/coworker/jobs.service.ts:34-81 | the new row: pending when manual, else scheduled, with its first run computed |
| `Jobs.JobTable.Update` | src/modules/coworker/jobs.service.ts:173-215 | only the named fields change and the next run is recomputed from the last one |
| `Jobs.Edit` | src/modules/coworker/jobs.service.ts:187-211 | the field assignments of an edit |
| `Jobs.EditIsWellTimed` | src/modules/coworker/jobs.service.ts:207-211 | an edit never makes a job due before its rule allows |
| `Jobs.JobTable.Cancel` | src/modules/coworker/jobs.service.ts:217-222 | cancelled, and no longer due |
| `Jobs.JobTable.TriggerNow` | src/modules/coworker/jobs.service.ts:241-252 | paused and cancelled jobs refuse; others become due at once |
| `Jobs.DueJobsAreAnswered` | src/modules/coworker/jobs.service.ts:261-270 | the due-jobs query lists scheduled jobs whose time has come, soonest first, ten at most |
| `Jobs.JobDispatcher.DispatchInternal` | src/modules/coworker/job-dispatcher.service.ts:21-41 | dispatches exactly when the job has no run in flight |
| `Jobs.JobDispatcher.DispatchNow` | src/modules/coworker/job-dispatcher.service.ts:16-19 | triggers, then dispatches; a refusal changes nothing |
| `Jobs.JobDispatcher.Begin` | src/modules/coworker/job-runner.service.ts:24-48 | skips missing, paused and cancelled jobs; otherwise marks the row running, wherever a fault strikes |
| `Jobs.JobDispatcher.Finish` | src/modules/coworker/job-runner.service.ts:110-159 | writes the settled job back and releases the id; the row stays running exactly when a save before the end fails |
| `Jobs.JobDispatcher.Release` | src/modules/coworker/job-dispatcher.service.ts:36-38 | a run that ends either way frees its id for another dispatch |
| `Scheduler.JobScheduler.TickBegins` | src/modules/coworker/job-scheduler.service.ts:34-37 | a timer that fires while a tick is under way changes nothing; otherwise the due jobs are asked for |
| `Scheduler.JobScheduler.TickEnds` | src/modules/coworker/job-scheduler.service.ts:38-50 | every job listed gets exactly one run in flight and a failed query starts none; what is started is put on record with the end of its last run and the gap its rule wanted |
| `Scheduler.AnsweredStartsKeepGaps` | src/modules/coworker/jobs.service.ts:261-270 | the listed jobs that nothing disturbed start no earlier than their rule allows after the actual end of their last run |
| `Scheduler.Take` | src/modules/coworker/job-dispatcher.service.ts:16-41 | one step of the process does what it should, and keeps all records in step |
| `Scheduler.Interleave` | src/modules/coworker/job-dispatcher.service.ts:12-41 | every interleaving makes of the process what its steps make of it in turn; in each the running set is exactly the jobs in flight, each once; rows say running only while in flight unless a save was lost; every start by the timer keeps its gap from the actual end of the last run unless the job was disturbed, and in a trace without lost saves, starts by hand and delayed answers all do |
| `EarlyStarts.LostSaveStartsEarly` | src/modules/coworker/job-runner.service.ts:110-141 | concrete steps: a lost final save, then an edit, then a start with no gap |
| `EarlyStarts.HandStartEarly` | src/modules/coworker/job-dispatcher.service.ts:16-41 | concrete steps: a run started by hand ends while a query is out, then a start with no gap |
| `EarlyStarts.SlowAnswerStartsEarly` | src/modules/coworker/job-scheduler.service.ts:34-51 | concrete steps: a run ends while a second query is out, then a start with no gap |
| `Impact.TotalIsSum` | src/modules/ai/ai-impact.service.ts:49-65 | with distinct ids the totals are sums over the entries and the destructive count is the number of nonzero ones |
| `Impact.TotalIsSumIff` | src/modules/ai/ai-impact.service.ts:49-65 | for any ids the totals are never less than the sums, and equal exactly when no entry that counts is overwritten by a later change with its id |
| `Impact.SumAdds` | src/modules/ai/ai-impact.service.ts:49-65 | each entry adds its records, its workflows, and one destructive change if it has any |
| `Impact.DestructiveCounts` | src/modules/ai/ai-impact.service.ts:49-65 | the destructive changes are the entries that count anything |
| `Impact.PublishedRows` | src/modules/ai/ai-impact.service.ts:92-112 | which published row a key or path finds |
| `Impact.FieldCostCounts` | src/modules/ai/ai-impact.service.ts:170-255 | a field change costs the records of its entity that hold a value, that hold none, or all, by what it does |
| `Impact.RemovalCostCounts` | src/modules/ai/ai-impact.service.ts:116-273 | a removal costs the records and workflows of this system that belong to what is removed, everything else nothing |
| `Impact.HarmIsReportedIff` | src/modules/ai/ai-impact.service.ts:222-250 | the records that making a field required harms are all reported exactly unless its type changes as well and there are records of both kinds |
| `Impact.ChargesReport` | src/modules/ai/ai-impact.service.ts:49-65 | with distinct ids every change has its own entry, holding what it costs |
| `Impact.Report.ChargeModule` | src/modules/ai/ai-impact.service.ts:116-142 | a removed module costs its records and workflows, entries and totals in step |
| `Impact.Report.ChargeEntity` | src/modules/ai/ai-impact.service.ts:145-167 | a removed entity costs its records |
| `Impact.Report.ChargeField` | src/modules/ai/ai-impact.service.ts:170-255 | every add, remove and modify branch charges what its entry says |
| `Impact.Report.ChargeWorkflow` | src/modules/ai/ai-impact.service.ts:259-273 | a removed workflow costs the stored definitions with its key |
| `Impact.ComputeImpact` | src/modules/ai/ai-impact.service.ts:45-283 | every change has its entry with what it costs, and the totals are their sums, when ids are distinct; nothing is affected when there is no system yet |
| `Impact.Balanced` | src/modules/ai/ai-impact.service.ts:49-65 | every report in progress is in balance |
| `AuditCsv.ReadCell` | src/modules/audit/audit.service.ts:164-167 | a printed cell reads as its one-line text, up to its closing quote |
| `AuditCsv.ReadTable` | src/modules/audit/audit.service.ts:145-153 | any bare header over any printed rows reads back as header and rows |
| `AuditCsv.ReadToCsv` | src/modules/audit/audit.service.ts:131-154 | the export reads back as the eleven columns and, for each row, the text of each value, line breaks turned into spaces |
| `AuditCsv.LastBreakOptional` | src/modules/audit/audit.service.ts:153 | a line break at the very end would change nothing for the reader |
| `AuditCsv.UnchangedIffOneLine` | src/modules/audit/audit.service.ts:165 | a cell comes back unchanged exactly when it has no line feed |
| `AuditCsv.OneLineAtBreak` | src/modules/audit/audit.service.ts:165 | each line feed, with the carriage return before it, becomes one space |
| `Captions.Scraper.Flush` | services/meeting-bot/src/meet-bot.ts:272-277 | hands over everything pending, and nothing when nothing is |
| `Captions.Scraper.Scrape` | services/meeting-bot/src/meet-bot.ts:322-334 | keeps the conservation law: handed over plus pending is the first caption of each key, and `seen` is their keys |
| `Captions.FirstByKeyOrder` | services/meeting-bot/src/meet-bot.ts:322-334 | each key once, in order of first occurrence |
| `Captions.FirstByKeyIsFirst` | services/meeting-bot/src/meet-bot.ts:323-328 | each caption kept is the very first with its key |
| `Captions.KeyNamesLine` | services/meeting-bot/src/meet-bot.ts:323-328 | lines share a key exactly when speaker and text agree, as long as no name has a colon |
| `Captions.ColonLosesLine` | services/meeting-bot/src/meet-bot.ts:326-328 | with a colon in a name a different line can be lost |
| `Captions.CaptionTells` | services/meeting-bot/src/meet-bot.ts:330-334 | a caption keeps speaker and text and starts at the nearest second |
| `Captions.Scraper.Run` | services/meeting-bot/src/meet-bot.ts:262-342 | for every interleaving of polls and flushes, exactly the first caption of each key is handed over, once, in order |
| `BrowserPool.RecentByLastUse` | src/modules/browser/browser-session.service.ts:182-214 | the recency list holds the distinct keys in order of their last uses |
| `BrowserPool.UseKeepsLastN` | src/modules/browser/browser-session.service.ts:190-213 | evicting at every step keeps the last n of the whole trace |
| `BrowserPool.Pool.LeastRecent` | src/modules/browser/browser-session.service.ts:192-194 | sorting by last use finds the head of the recency list |
| `BrowserPool.Pool.Close` | src/modules/browser/browser-session.service.ts:216-221 | takes out one session and keeps the order of the rest |
| `BrowserPool.Pool.Ensure` | src/modules/browser/browser-session.service.ts:182-214 | hit, refusal, eviction and failed launch, never above the bound |
| `BrowserPool.Pool.Sweep` | src/modules/browser/browser-session.service.ts:223-239 | exactly the sessions idle too long go, and the rest keep their order |
| `BrowserPool.Pool.PageCloses` | src/modules/browser/browser-session.service.ts:182-187 | a page that closes by itself keeps its place in the pool until its key is used again or swept |
| `BrowserPool.Pool.Endure` | src/modules/browser/browser-session.service.ts:159-239 | uses, failed launches, closed pages, sweeps and disconnections in any order make of the pool what they make of it in turn, and never take it over its bound |
| `BrowserPool.Pool.Disconnected` | src/modules/browser/browser-session.service.ts:159-162 | all sessions go with the browser |
| `BrowserPool.Pool.Serve` | src/modules/browser/browser-session.service.ts:182-214 | after any trace the pool holds exactly the max most recently used distinct keys |
| `Payments.Ledger.RecordPaystackEvent` | src/modules/billing/payments.service.ts:41-81 | one upsert keeps one row per reference, in step with the history |
| `Payments.RecordedRow` | src/modules/billing/payments.service.ts:60-88 | every field of the row an event leaves: what the event carries, else what was there, else the default; the status by name or data |
| `Payments.PickedIsFirst` | src/modules/billing/payments.service.ts:90-100 | the first key that holds a non-empty text decides |
| `Payments.Ledger.RecordAll` | src/modules/billing/payments.service.ts:41-81 | each field is what the last event that carried it said, else its default; the status is the last event's |
| `Payments.RecordedFollowsHistory` | src/modules/billing/payments.service.ts:60-77 | the upsert refines that reading of the history |
| `Payments.Redelivered` | src/modules/billing/payments.service.ts:64-77 | redelivery is a no-op exactly when the event is the last of its reference |
| `Payments.LateRetryUndoesRefund` | src/modules/billing/payments.service.ts:70 | a late retry of a charge undoes its refund |
| `Payments.RecordedTwice` | src/modules/billing/payments.service.ts:64-77 | an event delivered twice in a row counts once |
| `Payments.RecordedCommute` | src/modules/billing/payments.service.ts:64-77 | events of different references commute |
| `Documents.BumpsIffRewritesOrNull` | src/modules/documents/documents.service.ts:210-218 | a version is made exactly for a rewrite or a null field |
| `Documents.UpdateKeepsConsistent` | src/modules/documents/documents.service.ts:209-237 | versions stay numbered from one, the newest is the live text, and a version repeats its predecessor exactly for a null that rewrites nothing |
| `Documents.NullEchoes` | src/modules/documents/documents.service.ts:210-216 | a null title does make such a version |
| `Documents.Store.Create` | src/modules/documents/documents.service.ts:111-149 | a document with its first version |
| `Documents.Store.Update` | src/modules/documents/documents.service.ts:195-271 | appends a snapshot exactly when the version is bumped; metadata alone leaves the history |
| `Documents.Store.Remove` | src/modules/documents/documents.service.ts:274-288 | marks the document and keeps its history |
| `Documents.Store.Duplicate` | src/modules/documents/documents.service.ts:291-305 | a copy with its own first version; the source and its history are left alone |
| `Documents.Store.Serve` | src/modules/documents/documents.service.ts:111-305 | every sequence of calls leaves what the calls make of the tables in turn; it keeps histories consistent and only ever extends them; without nulls adjacent versions differ |

## Left out

- HMAC-SHA-1 is an arbitrary function to twenty octets; nothing is said about its security. `provisioningUri` only concatenates text.
- `toUpperCase` outside ASCII is an arbitrary table.
- Unique module, entity and field keys of plans are a premise of the composition laws, and those of definitions too of the identity, lookup and selection laws. The source enforces it only for the module keys of a plan: `validateUniqueKeys` looks at all three levels but is called from nowhere, and nothing looks at the keys of workflows and policies.
- JSON values inside definitions are compared as their text, the way `deepEqual` compares them; definitions are values, so `clone` is the identity. Risk scores, reasons and summary counts of a diff only add up constants.
- `Compare` stands for five copies of the same pair of loops.
- Tool inputs and outputs, prompts and the answers of models are texts or a few kinds of values; the regular expressions that route a prompt, the org brief and the choice of model are arbitrary answers. Quotes inside serialized texts are not escaped, and the output of a failed tool is printed schematically.
- The operator may press stop just before any look of a build at its flag; presses at other moments are seen by the next look. The fixed sentences of the generator's prompts are parameters. The texts of status events are left out. They are results without calls, so call-result pairing is stated for the tiers, the cache and the frontier only.
- A clock without daylight saving, dates from 1970 on, integer INTERVAL, BYHOUR below 24 and BYMINUTE below 60; the parsing of rule texts is not part of this model. Both copies of the rule code are identical and modelled once.
- One process; a due-jobs query answers from the table as it stood when asked. Steps recorded by a run, access control, activity and audit logs, titles and instructions of jobs are not modelled.
- `Scheduler.Interleave`: an edit may land while a run is in flight, and the run writes its own copy back over it, so nothing is claimed about cancelled jobs staying cancelled.
- The note texts of an impact report, and counts that change while it is being computed.
- The CSV is read with line feeds as record breaks; columns are texts, dates or JSON values already printed.
- Captions that fail to reach the API are lost there; handing over is all the scraper decides.
- The pool's calls are atomic and its clock strictly increasing; awaits inside `ensure` can overshoot the bound for a moment.
- Payment dates are their text, and the raw event is kept as a value.
- Access checks, storage of files, search indexing and rendering of documents.
- Controllers, entities, migrations, queues, front ends, deployment scripts, role tables, billing quotas and module templates.
