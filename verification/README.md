# takenlijst — a Dafny model of the family task list

This project models the core of the "takenlijst" (task list) part of the
family-monolith server and the small client helpers around it. Each
component is one Dafny module in its own file:

- `common.dfy` (`Common`): optional values, resolver results, the error
  codes the resolvers attach (`NOT_FOUND`, `PERMISSION_DENIED`,
  `CONFLICT_STALE_WRITE`, …), and the UTF-8 byte length that Rust's `str::len`
  reports.
- `text.dfy` (`Text`): trimming under Rust's and JavaScript's notions of
  white space, ASCII case mapping, and splitting and joining on a
  separator.
- `clock.dfy` (`Clock`): calendar dates, wall-clock minutes and time zones
  as `time_utils` sees them. A zone is an oracle that resolves a local date
  and minute to instants, and maps instants back to local dates and minutes.
- `classifier.dfy` (`Classifier`): the temporal classifier of
  `server/src/tasks/mod.rs`. It covers the overdue flag, the bucket
  (overdue, today, tomorrow, upcoming, no date) and the ordering key.
- `db.dfy` (`Db`): the rows of the SQLite database and the `Store` class
  whose fields are the tables. Every resolver reads and writes one store.
  The outside world arrives as an `Env` value: the clock, the zones, the
  recurrence expander and the server-side name normalisers.
- `guard.dfy` (`Guard`): the project access checks of
  `server/src/auth/guard.rs` and the optimistic-concurrency guard. That
  guard refuses a write with `CONFLICT_STALE_WRITE` when the caller's `updated_at`
  token is not the stored one.
- `rule_text.dfy` (`RuleText`): RRULE normalisation for date-only series.
- `materialise.dfy` (`Materialise`): turning occurrences into `todo` task
  rows, for seeding and for the top-up.
- `topup.dfy` (`TopUp`): `top_up_series`, which keeps five future `todo`
  tasks for a series.
- `create_series.dfy` (`CreateSeries`) and `update_series.dfy`
  (`UpdateSeries`): the recurring-series resolvers.
- `tasks.dfy` (`Tasks`): `createTask` and `abandonTask`.
- `projects.dfy` (`Projects`) and `tags.dfy` (`Tags`): the project and tag
  resolvers. `create_project.rs`, `archive_project.rs`,
  `mutations/add_project_member_by_username.rs`, `create_tag.rs` and
  `delete_tag.rs` repeat the code of `projects.rs` and `tags.rs`, so one
  model covers both copies.
- `filters_json.dfy` (`FiltersJson`): a saved view's filters and the
  compact JSON text stored for them.
- `saved_views.dfy` (`SavedViews`): the saved-view resolvers and a
  project's default view.
- `refresh.dfy` (`Refresh`): issuing, deleting and rotating refresh tokens.
- `rate_limit.dfy` (`RateLimit`): the per-address login rate limiter.
- `gql_errors.dfy` (`GqlErrors`), `refresh_state.dfy` (`RefreshState`) and
  `tag_name.dfy` (`TagName`): helpers of the mobile client.
- `app_meta.dfy` (`AppMeta`): helpers of the web client.
- `with_timezone.dfy` (`SharedTime`): the shared helper that attaches a
  timezone to GraphQL variables.

Pure code (the classifier, rule text, filters JSON and the client helpers)
is written as functions, with lemmas about them. Resolvers that change the
database are methods on the `Store`. Each one is proved against an outcome
function of the old state. That function is split into a validation step
and an effect, and lemmas state the promised properties of it: an error
changes nothing, a stale token is refused, only the owner may write, and
names stay unique. The two stateful helpers, the login limiter and the
refresh-flag manager, are classes whose methods update their fields.

In a few places the code does something other than its comments or
documentation suggest. The model follows the code:

- A project that does not exist is refused with `PERMISSION_DENIED`, not
  `NOT_FOUND` (`Guard.MissingProjectIsDenied`).
- `createTask` rejects a list with a repeated tag id as `NOT_FOUND`,
  because its check counts distinct rows (`Tasks.TagCountAcceptsExactly`).
- The UPDATE of `abandonTask` does not write `updated_at`, and it accepts
  a task that is already abandoned.
- Tasks regenerated by `updateRecurringSeries` are authored by the caller.
  Tasks added by the top-up are authored by the series' creator.
- `createRecurringSeries` stores the series and its tag links before the
  rule set is parsed with its DTSTART. A rule that fails there leaves the
  series stored and returns an error.
- `updateSavedView` writes the row before it decodes the stored filters.

## Model

| member | source | states |
|---|---|---|
| Common.Utf8Length | server/src/graphql/takenlijst/projects.rs:40 | the byte length that the 60-byte name limit counts is at least the character count, at most four times it, and equal to it for ASCII text |
| Clock.Tomorrow | server/src/tasks/mod.rs:178 | the day after today, or today itself at the last representable date |
| Clock.TruncDiv | server/src/tasks/mod.rs:88 | Rust integer division rounds toward zero: the quotient has the dividend's sign and divisor × quotient lies within one divisor of the dividend, on the side of zero |
| Clock.TruncRem | server/src/tasks/mod.rs:89 | Rust remainder: dividend = divisor × quotient + remainder, with the remainder taking the dividend's sign |
| Clock.AsU32 | server/src/tasks/mod.rs:90 | the `as u32` cast keeps non-negative values and wraps negative ones by 2^32 |
| Clock.FromHm | server/src/tasks/mod.rs:90 | a time of day exists exactly for hours below 24 and minutes below 60 |
| Clock.TimeOfDay | server/src/tasks/mod.rs:87-93 | a stored minute count yields a time of day exactly when it lies in 0..1439, and then that very minute |
| Clock.NegativeClockPartsAreLarge | server/src/tasks/mod.rs:88-90 | a negative minute count gives a negative hour or a negative minute part, so one cast wraps out of range |
| Clock.CombineDateTime | server/src/tasks/mod.rs:80-103 | an unparseable date or an out-of-range time has no instant; otherwise the zone's resolution of that local date and minute (midnight when untimed) decides |
| Clock.LocalInstant | server/src/tasks/mod.rs:98-102 | a single local time keeps its instant, an ambiguous one the earlier instant, a skipped one none |
| Clock.CombinedInstantOnItsDate | server/src/tasks/mod.rs:95-102 | in a well-formed zone a combined instant lies on its stored local date |
| Classifier.CheckedPair | server/src/tasks/mod.rs:116-122 | the scheduled date and time are judged when there is a scheduled date, else the deadline ones, else nothing |
| Classifier.IsTaskOverdue | server/src/tasks/mod.rs:106-139 | overdue only with a checked date that can be placed on the clock; a timed task is overdue exactly when its instant is before now |
| Classifier.DateBucket | server/src/tasks/mod.rs:178-188 | Overdue exactly before today, Today on today, Tomorrow on the next day, otherwise Upcoming |
| Classifier.GetTaskBucket | server/src/tasks/mod.rs:142-189 | NoDate exactly when there is no checked date or it does not parse; a timed checked date whose instant is placeable and has passed is Overdue; any other parseable checked date gets its date's bucket against today (Overdue, Today, Tomorrow or Upcoming), also when a DST gap leaves the time unplaceable |
| Classifier.GetTaskSortKey | server/src/tasks/mod.rs:194-223 | each of the scheduled and deadline components is the date's combined instant when it can be placed and `i64::MAX` when the date is missing or cannot be placed; the third component is the creation stamp |
| Classifier.InstantOrMax | server/src/tasks/mod.rs:202-208 | a missing or unplaceable date becomes `i64::MAX`; a placeable date becomes its instant |
| Classifier.OverdueIffOverdueBucket | server/src/tasks/mod.rs:128-181 | when the checked date and time can be placed on the clock, the overdue flag holds exactly when the bucket is Overdue |
| Classifier.MidnightGapSplitsJudgements | server/src/tasks/mod.rs:124-181 | a past date-only task whose midnight falls in a clock gap is not overdue, yet is bucketed Overdue |
| Classifier.ScheduledDateTakesPrecedence | server/src/tasks/mod.rs:116-122 | with a scheduled date the deadline changes neither the overdue flag nor the bucket |
| Classifier.UndatedTasksAreNoDate | server/src/tasks/mod.rs:116-166 | a task with no checked date, or an unparseable one, is not overdue and is bucketed NoDate |
| Classifier.DateOnlyOverdueByDate | server/src/tasks/mod.rs:132-135 | a placeable date-only task is overdue exactly when its date is before today |
| Classifier.PendingTimedTaskBucket | server/src/tasks/mod.rs:169-188 | a timed task that is not yet due is bucketed by its date, and that date is not before today |
| Classifier.SortKeyOrdersScheduledFirst | server/src/tasks/mod.rs:202-222 | a task with a placeable scheduled instant sorts before every task without a scheduled date |
| Classifier.SortKeyFollowsScheduledInstant | server/src/tasks/mod.rs:202-222 | an earlier scheduled instant sorts first, whatever the deadlines and creation stamps |
| Db.Store.FreshId | server/src/graphql/takenlijst/projects.rs:54 | a new row id is used by no existing row, and nothing else changes |
| Db.Store.Rollback | server/src/graphql/takenlijst/mutations/update_recurring_series.rs:255 | a rolled-back series update restores the four tables its transaction writes and leaves the rest alone |
| Db.CallerId | server/src/graphql/takenlijst/projects.rs:23-51 | no login claims is an authentication error, an unknown user name a failed query, otherwise the caller's id |
| Guard.OwnerRowCount | server/src/auth/guard.rs:12-20 | the owner query counts at most one row |
| Guard.Require | server/src/auth/guard.rs:48-60 | a true check passes, a false one is PERMISSION_DENIED, a failing query NOT_FOUND |
| Guard.RequireOwner | server/src/auth/guard.rs:43-61 | passes exactly when the project exists and the caller owns it; otherwise PERMISSION_DENIED |
| Guard.RequireMember | server/src/auth/guard.rs:64-82 | passes exactly when the member count is positive; otherwise PERMISSION_DENIED |
| Guard.MemberCountMeaning | server/src/auth/guard.rs:29-39 | the joined count is positive exactly when the project exists and the caller owns it or has a membership row |
| Guard.OwnerIsMember | server/src/auth/guard.rs:23-40 | every owner passes the member check |
| Guard.MembershipRoles | server/src/auth/guard.rs:7-40 | a plain member passes the member check but not the owner check; a stranger fails both |
| Guard.MissingProjectIsDenied | server/src/auth/guard.rs:48-53 | a project that does not exist is refused with PERMISSION_DENIED by both checks, not NOT_FOUND |
| Text.SplitJoin | server/src/graphql/takenlijst/create_recurring_series.rs:170-180 | splitting the `;`-join of parts that contain no `;` gives those parts back |
| RuleText.KeptParts | server/src/graphql/takenlijst/create_recurring_series.rs:171-179 | keeps exactly the parts whose ASCII upper-case form does not start with BYHOUR=, BYMINUTE= or BYSECOND=, and never adds any |
| RuleText.KeptPartsSingle | server/src/graphql/takenlijst/create_recurring_series.rs:174-177 | a single part is kept exactly when it is not a time part |
| RuleText.KeptPartsAppend | server/src/graphql/takenlijst/create_recurring_series.rs:171-179 | filtering distributes over concatenation, so the kept parts keep their order and their number of occurrences |
| RuleText.NormalizeRule | server/src/graphql/takenlijst/create_recurring_series.rs:166-181 | a series with a start time stores its rule text unchanged |
| RuleText.KeptPartsOfKept | server/src/graphql/takenlijst/create_recurring_series.rs:171-179 | filtering parts without time parts keeps them all |
| RuleText.DateOnlyRuleParts | server/src/graphql/takenlijst/create_recurring_series.rs:170-180 | the rule stored for a date-only series splits into exactly the non-time parts of the given rule, in order, none of them a time part |
| RuleText.NormalizeIdempotent | server/src/graphql/takenlijst/create_recurring_series.rs:166-181 | normalising a normalised rule changes nothing |
| RuleText.ClassifiesExampleParts | server/src/graphql/takenlijst/create_recurring_series.rs:174-177 | the comparison is case-insensitive: `byhour=9` is a time part, `FREQ=DAILY` is not |
| RuleText.StripsPinnedHour | server/src/graphql/takenlijst/create_recurring_series.rs:165-180 | `FREQ=DAILY;byhour=9` is stored as `FREQ=DAILY` for a date-only series |
| Materialise.SeededIsFirstFuture | server/src/graphql/takenlijst/create_recurring_series.rs:254-304 | seeding yields exactly the first five occurrences that are not before now |
| Materialise.SeededBounds | server/src/graphql/takenlijst/create_recurring_series.rs:254-304 | at most five seeded occurrences, each from the stream and not before now, in stream order |
| Materialise.FilledBounds | server/src/graphql/takenlijst/series_topup.rs:152-204 | the top-up admits at most the shortfall, each occurrence from the stream and not before now |
| Materialise.FilledSlotsFresh | server/src/graphql/takenlijst/series_topup.rs:162-199 | no admitted (date, time) slot was already occupied, and no two admitted occurrences share a slot |
| Materialise.FilledShortfallCoversStream | server/src/graphql/takenlijst/series_topup.rs:152-204 | when the top-up falls short, every occurrence not before now had its slot occupied before or by this run |
| Materialise.FilledNothingWhenCovered | server/src/graphql/takenlijst/series_topup.rs:152-165 | with every future slot already occupied, the top-up admits nothing |
| Materialise.AfterRunOnlyAdds | server/src/graphql/takenlijst/series_topup.rs:175-197 | generating tasks only inserts task rows and tag links: every other table and every existing row stays |
| Materialise.InsertTask | server/src/graphql/takenlijst/series_topup.rs:175-197 | one task INSERT under a fresh id plus `INSERT OR IGNORE` of a link to every default tag |
| Materialise.SeedTasks | server/src/graphql/takenlijst/create_recurring_series.rs:254-304 | the seeding loop inserts exactly the rows of the seeded occurrences, under consecutive fresh ids, with their tag links |
| Materialise.FillTasks | server/src/graphql/takenlijst/series_topup.rs:152-204 | the top-up loop inserts exactly the rows of the admitted occurrences, under consecutive fresh ids, with their tag links |
| TopUp.TopUpPlan | server/src/graphql/takenlijst/series_topup.rs:7-150 | an unknown zone is VALIDATION_FAILED, an unknown series NOT_FOUND, a malformed stored start date or time VALIDATION_FAILED, and a start that is not a single instant in the zone gives no occurrences; no other errors; success needs a parseable series start |
| TopUp.TopUpSeries | server/src/graphql/takenlijst/series_topup.rs:7-207 | an error leaves the store unchanged; success inserts exactly the planned rows |
| TopUp.FillShortfall | server/src/graphql/takenlijst/series_topup.rs:138-204 | nothing is generated when five future `todo` tasks exist; an unparseable rule set is VALIDATION_FAILED with nothing written; otherwise the shortfall's rows are inserted |
| TopUp.ScanSeriesTasks | server/src/graphql/takenlijst/series_topup.rs:96-136 | the scan collects the slots of every task of the series and counts its future `todo` tasks |
| TopUp.TopUpPlanBounds | server/src/graphql/takenlijst/series_topup.rs:138-204 | a top-up never takes the series past five future `todo` tasks, generates only occurrences not before now, and never into an occupied or shared slot |
| TopUp.TopUpIdempotent | server/src/graphql/takenlijst/series_topup.rs:95-204 | a second top-up right after the first generates nothing, when the generated slots read back as their occurrences |
| TopUp.ShortfallFilledOnce | server/src/graphql/takenlijst/series_topup.rs:95-204 | after the rows of a shortfall are inserted, the shortfall is empty |
| TopUp.CountAfterRun | server/src/graphql/takenlijst/series_topup.rs:107-136 | each generated future row adds one to the future `todo` count and occupies its slot |
| CreateSeries.CheckTagsExist | server/src/graphql/takenlijst/create_recurring_series.rs:148-160 | the per-tag existence loop succeeds exactly when every listed default tag exists |
| CreateSeries.CreateSeriesValidation | server/src/graphql/takenlijst/create_recurring_series.rs:21-160 | the refusal of each check in the resolver's order: no login AUTHENTICATION_REQUIRED, an unknown caller row a query error, a bad offset, rule, date, zone, past start date or start time (outside 0..1439, or already passed or not one instant today) VALIDATION_FAILED, a non-member PERMISSION_DENIED, an unknown assignee or default tag NOT_FOUND; acceptance exactly when all pass |
| CreateSeries.NewSeriesRow | server/src/graphql/takenlijst/create_recurring_series.rs:162-199 | the stored series is created by the caller with its rule normalised, unchanged when it has a start time |
| CreateSeries.CreationSeed | server/src/graphql/takenlijst/create_recurring_series.rs:210-304 | a start that is not one unambiguous instant seeds nothing and succeeds; otherwise the result is an error, VALIDATION_FAILED, exactly when the normalised rule set does not parse with its DTSTART; a success has at most five occurrences, none before now |
| CreateSeries.InsertSeries | server/src/graphql/takenlijst/create_recurring_series.rs:183-208 | the series row under a fresh id and one link per default tag |
| CreateSeries.ValidateCreation | server/src/graphql/takenlijst/create_recurring_series.rs:21-160 | the validation statements compute the validation outcome |
| CreateSeries.SeedCreatedSeries | server/src/graphql/takenlijst/create_recurring_series.rs:210-305 | an error writes nothing more; otherwise exactly the seeded rows are inserted, authored by the caller |
| CreateSeries.StoreSeries | server/src/graphql/takenlijst/create_recurring_series.rs:162-305 | the series and its tag links stay stored even when seeding then fails |
| CreateSeries.CreateRecurringSeries | server/src/graphql/takenlijst/create_recurring_series.rs:16-305 | a validation error changes nothing; otherwise the result and the tables are those of storing and seeding |
| CreateSeries.CreationOutcome | server/src/graphql/takenlijst/create_recurring_series.rs:16-305 | a validation error is returned and changes nothing; after validation the series row is stored under the fresh id even when seeding then fails |
| CreateSeries.CreationSeedsFirstFuture | server/src/graphql/takenlijst/create_recurring_series.rs:247-304 | the tasks seeded at creation are exactly the first five occurrences of the normalised rule that are not before now |
| CreateSeries.PastStartRefused | server/src/graphql/takenlijst/create_recurring_series.rs:81-87 | a start date before today is refused with VALIDATION_FAILED |
| CreateSeries.CreationOnlyAdds | server/src/graphql/takenlijst/create_recurring_series.rs:162-305 | creation touches only the series, series-tag, task and task-tag tables, and keeps every existing task and link |
| UpdateSeries.UpdateSeriesValidation | server/src/graphql/takenlijst/mutations/update_recurring_series.rs:24-237 | the refusal of each check in the resolver's order: no login, an unknown caller row, an unknown zone VALIDATION_FAILED (before the series lookup), an unknown series NOT_FOUND, a stale token CONFLICT_STALE_WRITE, a non-member PERMISSION_DENIED, a bad supplied offset, rule or start (malformed, before today, time outside the day or already passed today) VALIDATION_FAILED, an unknown merged assignee or supplied tag NOT_FOUND; acceptance exactly when all pass |
| UpdateSeries.ValidateUpdate | server/src/graphql/takenlijst/mutations/update_recurring_series.rs:24-237 | the validation statements compute the validation outcome |
| UpdateSeries.RewriteSeries | server/src/graphql/takenlijst/mutations/update_recurring_series.rs:276-310 | the series row is replaced and, when tags are supplied, its links become exactly the supplied tags |
| UpdateSeries.PruneSeriesTasks | server/src/graphql/takenlijst/mutations/update_recurring_series.rs:322-360 | the upcoming `todo` tasks of the series and their links are deleted, nothing else |
| UpdateSeries.RegenerateTasks | server/src/graphql/takenlijst/mutations/update_recurring_series.rs:322-459 | on success the tables are those of pruning then seeding; on an error only tasks and links have changed and the id counter has not moved |
| UpdateSeries.PatchTodoTasks | server/src/graphql/takenlijst/mutations/update_recurring_series.rs:460-517 | the series' `todo` tasks take the merged title, description and assignee, and are relinked when tags were supplied |
| UpdateSeries.RelinkTodoTasks | server/src/graphql/takenlijst/mutations/update_recurring_series.rs:484-515 | after the per-task loop every listed task's links are exactly the new tags and all other links stay |
| UpdateSeries.ApplyUpdate | server/src/graphql/takenlijst/mutations/update_recurring_series.rs:255-520 | the transaction's result and tables; an error rolls every write back |
| UpdateSeries.UpdateRecurringSeries | server/src/graphql/takenlijst/mutations/update_recurring_series.rs:16-546 | the resolver's result and tables are the validation outcome followed by the transaction |
| UpdateSeries.StaleTokenRefused | server/src/graphql/takenlijst/mutations/update_recurring_series.rs:68-73 | a token different from the stored `updated_at` is refused with CONFLICT_STALE_WRITE and nothing changes |
| UpdateSeries.UpdateErrorChangesNothing | server/src/graphql/takenlijst/mutations/update_recurring_series.rs:255-520 | every refused update, in validation or inside the transaction, leaves every table unchanged |
| UpdateSeries.OutOfDayTimeRefused | server/src/graphql/takenlijst/mutations/update_recurring_series.rs:156-162 | a start time outside 0..1439 is always refused with nothing changed; it passes validation only without a start date, and is then refused when the start time is rebuilt (an error without a code) |
| UpdateSeries.AcceptedUpdateStoresMergedRow | server/src/graphql/takenlijst/mutations/update_recurring_series.rs:78-106 | an accepted update returns the stored row; project, creator and creation stamp are kept, the new stamp is set, a stored description, assignee or start time is never cleared, and the default tags are the supplied ones else the stored ones |
| UpdateSeries.RewrittenTags | server/src/graphql/takenlijst/mutations/update_recurring_series.rs:239-310 | after the rewrite the series' links name exactly the tags the resolver returns |
| UpdateSeries.RegenerateKeepsSeries | server/src/graphql/takenlijst/mutations/update_recurring_series.rs:322-459 | regeneration changes only tasks and task links |
| UpdateSeries.RegenerationReplacesUpcoming | server/src/graphql/takenlijst/mutations/update_recurring_series.rs:322-459 | regeneration deletes exactly the upcoming `todo` tasks of the series, keeps every other task unchanged, and adds only `todo` tasks of the series authored by the caller at at most five fresh ids |
| UpdateSeries.PrunedTasks | server/src/graphql/takenlijst/mutations/update_recurring_series.rs:328-360 | a task survives pruning exactly when it is not upcoming, and survives unchanged |
| UpdateSeries.RunAddsTemplateRows | server/src/graphql/takenlijst/mutations/update_recurring_series.rs:407-458 | the seeding loop keeps every older task and adds only `todo` tasks of the template's series and author |
| UpdateSeries.PatchTouchesOnlyTodo | server/src/graphql/takenlijst/mutations/update_recurring_series.rs:469-515 | the patch rewrites the series' `todo` tasks only, keeps every other task and every other task's links, and when relinking a `todo` task is linked to a tag exactly when the tag is a new default tag |
| Tasks.CreateTaskValidation | server/src/graphql/takenlijst/mutations/create_task.rs:24-137 | the refusal code of each check in order: no login AUTHENTICATION_REQUIRED, an unknown zone INVALID_TIMEZONE, an unknown caller row a query error, no membership or an archived project PERMISSION_DENIED, a bad field VALIDATION_FAILED, an unknown or repeated tag NOT_FOUND; acceptance exactly when all pass, and acceptance implies a known caller, a known zone, membership of a project that is not archived, a trimmed title of 1..120 bytes, a description of at most 5000 bytes, each time only with its date and within 0..1439, well-formed dates, an assignee who is a member, and tag ids that pass the count check |
| Tasks.ValidateNewTask | server/src/graphql/takenlijst/mutations/create_task.rs:24-137 | the validation statements compute the validation outcome |
| Tasks.CreateTask | server/src/graphql/takenlijst/mutations/create_task.rs:18-221 | the resolver's result and tables are the validation outcome followed by the task insert and its tag links |
| Tasks.CreateTaskOutcome | server/src/graphql/takenlijst/mutations/create_task.rs:18-221 | an error leaves every table as it was; only the task and task-tag tables change; success stores a to-do row under the fresh id and only adds tag links |
| Tasks.CreateInArchivedProjectRefused | server/src/graphql/takenlijst/mutations/create_task.rs:42-56 | a signed-in caller creating in an archived project is refused with PERMISSION_DENIED and nothing changes |
| Tasks.CreatedTaskIsFresh | server/src/graphql/takenlijst/mutations/create_task.rs:140-221 | a created task is a `todo` task without series, authored by the caller with the trimmed title, stored under a fresh id, linked to exactly the listed tags, and no other row changes |
| Tasks.TagCountAcceptsExactly | server/src/graphql/takenlijst/mutations/create_task.rs:122-136 | the `COUNT(*) ... IN` check accepts a non-empty list exactly when every id names a tag and no id repeats |
| Tasks.DistinctCount | server/src/graphql/takenlijst/mutations/create_task.rs:122-131 | a list names as many distinct ids as it has entries exactly when no entry repeats |
| Tasks.IntersectionCount | server/src/graphql/takenlijst/mutations/create_task.rs:125-131 | the matching rows are as many as the listed ids exactly when every listed id is a tag |
| Tasks.SubsetSize | server/src/graphql/takenlijst/mutations/create_task.rs:125-131 | a subset is no larger than its superset |
| Tasks.AbandonValidation | server/src/graphql/takenlijst/abandon_task.rs:25-78 | the refusal code of each check in order: no login, unknown zone, unknown caller row, an unknown task NOT_FOUND, no membership or an archived project PERMISSION_DENIED, a stale token CONFLICT_STALE_WRITE, a done task VALIDATION_FAILED; acceptance exactly when all pass, and acceptance implies a known caller, a known zone, an existing task in a non-archived project the caller is a member of, a matching `updated_at` token and a task that is not done |
| Tasks.ValidateAbandon | server/src/graphql/takenlijst/abandon_task.rs:25-78 | the checks compute the validation outcome |
| Tasks.MarkAbandoned | server/src/graphql/takenlijst/abandon_task.rs:80-84 | only the task's status, abandonment stamp and abandoning user change |
| Tasks.AbandonTask | server/src/graphql/takenlijst/abandon_task.rs:18-145 | the resolver's result and tables are validation, the update, and a top-up of the task's series whose failure is ignored |
| Tasks.AbandonOutcome | server/src/graphql/takenlijst/abandon_task.rs:18-145 | an error leaves every table as it was; success returns the given task, now abandoned |
| Tasks.AbandonInArchivedProjectRefused | server/src/graphql/takenlijst/abandon_task.rs:54-66 | abandoning a task of an archived project is refused with PERMISSION_DENIED and nothing changes |
| Tasks.AbandonStaleRefused | server/src/graphql/takenlijst/abandon_task.rs:68-72 | for a member of a writable project, a token different from the task's `updated_at` is refused with CONFLICT_STALE_WRITE and nothing changes |
| Tasks.AbandonDoneRefused | server/src/graphql/takenlijst/abandon_task.rs:74-78 | with the current token, a done task is refused with VALIDATION_FAILED and nothing changes |
| Tasks.AbandonKeepsToken | server/src/graphql/takenlijst/abandon_task.rs:68-84 | the UPDATE does not write `updated_at`, so, with no trigger on `tasks`, the same token is accepted again |
| Projects.CheckedName | server/src/graphql/takenlijst/projects.rs:31-44 | a name is accepted exactly when its normalised form is non-empty and at most 60 bytes, and the stored name is that normalised form; otherwise VALIDATION_FAILED |
| Projects.CreateProjectValidation | server/src/graphql/takenlijst/projects.rs:23-52 | no login gives the authentication error, a bad name VALIDATION_FAILED, and acceptance implies a known caller and a valid name |
| Projects.CreateProject | server/src/graphql/takenlijst/projects.rs:17-78 | the resolver's result and tables are the checks followed by the insert under a fresh id and the reread row |
| Projects.CreateProjectOutcome | server/src/graphql/takenlijst/projects.rs:17-78 | an error leaves every table as it was; only the projects table changes, and success stores the returned row under the fresh id |
| Projects.OwnerWriteCheck | server/src/graphql/takenlijst/projects.rs:112-135 | an unknown caller row is a query error, a non-owner (or a missing project) PERMISSION_DENIED, a stale token CONFLICT_STALE_WRITE, and acceptance happens exactly for the owner holding the current token |
| Projects.RenameValidation | server/src/graphql/takenlijst/projects.rs:88-135 | no login, then a bad name, then the owner-write checks decide, in that order; acceptance yields the normalised name of an existing project |
| Projects.ArchiveValidation | server/src/graphql/takenlijst/projects.rs:168-201 | no login gives the authentication error; otherwise the owner-write checks decide |
| Projects.CheckOwnerWrite | server/src/graphql/takenlijst/projects.rs:112-135 | the statements compute the owner-write check |
| Projects.StoreProject | server/src/graphql/takenlijst/projects.rs:137-150 | the project row is replaced and reread, nothing else changes |
| Projects.RenameProject | server/src/graphql/takenlijst/projects.rs:80-159 | the resolver's result and tables are the checks followed by the name update |
| Projects.RenameOutcome | server/src/graphql/takenlijst/projects.rs:80-159 | an error leaves every table as it was; success replaces the existing project's row with the returned one and changes nothing else |
| Projects.SetArchived | server/src/graphql/takenlijst/projects.rs:161-291 | archive and unarchive: the checks followed by setting or clearing the archive stamp |
| Projects.ArchiveOutcome | server/src/graphql/takenlijst/projects.rs:161-291 | an error leaves every table as it was; success replaces the existing project's row with the returned one and changes nothing else |
| Projects.AddMemberValidation | server/src/graphql/takenlijst/projects.rs:300-358 | no login AUTHENTICATION_REQUIRED, an unknown caller row a query error, a caller who does not own the project (or a missing project) PERMISSION_DENIED, an unknown lower-cased username NOT_FOUND, an existing member or the owner VALIDATION_FAILED; acceptance exactly when the caller owns the project and the user is neither member nor owner |
| Projects.AddProjectMemberByUsername | server/src/graphql/takenlijst/projects.rs:293-367 | the resolver's result and tables are the checks followed by one membership insert |
| Projects.AddMemberOutcome | server/src/graphql/takenlijst/projects.rs:293-367 | an error leaves every table as it was; only the membership table changes, and success adds exactly one membership |
| Projects.CreatedProjectIsOwned | server/src/graphql/takenlijst/projects.rs:54-78 | a created project is new, unarchived, carries the normalised name, is owned by the caller, who is then owner and member, and nothing else changes |
| Projects.StaleProjectWriteRefused | server/src/graphql/takenlijst/projects.rs:130-134 | for an owner, a stale token makes rename, archive and unarchive refuse with CONFLICT_STALE_WRITE and change nothing |
| Projects.RenameChangesOnlyName | server/src/graphql/takenlijst/projects.rs:137-159 | a rename changes only the project's name and `updated_at` and answers with the stored row |
| Projects.ArchiveIgnoresCurrentState | server/src/graphql/takenlijst/projects.rs:196-224 | an owner with the current token can archive an already archived project (re-stamped) and unarchiving clears the stamp, keeping name, owner and creation stamp |
| Projects.SameSecondWriteKeepsToken | server/src/graphql/takenlijst/projects.rs:203-207 | a write within the same second as the previous one leaves `updated_at` unchanged, so the old token is still accepted |
| Projects.AddedMemberJoins | server/src/graphql/takenlijst/projects.rs:344-366 | adding inserts exactly one membership for a user who was not yet a member, and the same addition is then refused |
| Tags.TagNamed | server/src/graphql/takenlijst/tags.rs:34-37 | the lookup by name finds a tag of that name, and finds none exactly when no tag has it |
| Tags.TagNamedIsUnique | server/src/graphql/takenlijst/tags.rs:34-37 | with unique names the lookup finds the one tag that has the name |
| Tags.FindTagByName | server/src/graphql/takenlijst/tags.rs:112-115 | the statements compute the lookup by name |
| Tags.CreateTag | server/src/graphql/takenlijst/tags.rs:15-72 | the resolver's result and tables: no login or an empty normalised name is refused, an existing tag of the normalised name is returned, otherwise one row is inserted |
| Tags.CreateTagOutcome | server/src/graphql/takenlijst/tags.rs:15-72 | an error leaves every table as it was; only the tags table changes; the returned tag carries the normalised name and is stored under the returned id |
| Tags.RenameTag | server/src/graphql/takenlijst/tags.rs:74-167 | the resolver's result and tables: an empty name, then a missing tag, are refused; renaming onto its own name returns it, onto another tag's name deletes the renamed tag, otherwise the name changes and the update trigger's stamp becomes `updated_at` |
| Tags.RenameTagOutcome | server/src/graphql/takenlijst/tags.rs:74-167 | an error leaves every table as it was; only the tags table changes; the returned tag carries the normalised new name and is stored under the returned id; a renamed tag with a new name carries the update trigger's stamp |
| Tags.DeleteTag | server/src/graphql/takenlijst/tags.rs:169-215 | the resolver's result and tables: a missing tag is NOT_FOUND, otherwise the row is deleted and true returned |
| Tags.DeleteTagOutcome | server/src/graphql/takenlijst/tags.rs:169-215 | success exactly for a signed-in caller and an existing tag, and then only that tag row is removed; an error leaves every table as it was |
| Tags.CreateTagIdempotent | server/src/graphql/takenlijst/tags.rs:33-50 | a created tag carries the normalised name; creating the same name again returns the same tag and changes nothing |
| Tags.CreateTagKeepsNamesUnique | server/src/graphql/takenlijst/tags.rs:33-58 | a row is inserted only when no tag has the name, at most one, and names stay unique |
| Tags.RenameOntoOtherDeletesRenamed | server/src/graphql/takenlijst/tags.rs:111-145 | renaming onto another tag's name deletes the renamed tag and returns the other one unchanged; the link tables are not modelled as changing (foreign-key effects left out) |
| Tags.RenameWithoutCollision | server/src/graphql/takenlijst/tags.rs:120-166 | renaming to the own name returns the tag and changes nothing; to a free name the tag gets the new name and the update trigger's stamp as `updated_at`, and nothing else changes |
| Tags.RenameTagKeepsNamesUnique | server/src/graphql/takenlijst/tags.rs:111-152 | every rename outcome keeps tag names unique |
| Tags.FreeNameRenameKeepsUnique | server/src/graphql/takenlijst/tags.rs:147-152 | giving a tag a name no tag has keeps names unique |
| Tags.DeleteTagAnswers | server/src/graphql/takenlijst/tags.rs:180-214 | delete answers true exactly when the tag existed and removes it; the link tables are not modelled as changing (foreign-key effects left out) |
| FiltersJson.Decimal | server/src/graphql/takenlijst/types/saved_view_filters.rs:18 | an id's text is a canonical digit string |
| FiltersJson.DecimalValue | server/src/graphql/takenlijst/types/saved_view_filters.rs:18 | an id's text denotes the id |
| FiltersJson.CanonicalIsDecimal | server/src/graphql/takenlijst/types/saved_view_filters.rs:18 | a canonical digit string is the text of the id it denotes, so each id has one text |
| FiltersJson.QuotedReadBack | server/src/graphql/takenlijst/types/saved_view_filters.rs:8-18 | a JSON string without escapes reads back as its characters, leaving what follows |
| FiltersJson.WordsReadBack | server/src/graphql/takenlijst/types/saved_view_filters.rs:8-18 | a non-empty comma-separated list of strings closed by `]` reads back as those strings |
| FiltersJson.ArrayReadBack | server/src/graphql/takenlijst/types/saved_view_filters.rs:8-18 | an array of strings, empty or not, reads back as its strings and the rest |
| FiltersJson.ArrayOnlyReads | server/src/graphql/takenlijst/types/saved_view_filters.rs:8-18 | an array is read only from the text that writes it |
| FiltersJson.StatusesReadBack | server/src/graphql/takenlijst/types/saved_view_filters.rs:8 | the status words need no escape and read back as the statuses |
| FiltersJson.IdsReadBack | server/src/graphql/takenlijst/types/saved_view_filters.rs:18 | the id words need no escape and read back as the ids |
| FiltersJson.BoolReadBack | server/src/graphql/takenlijst/types/saved_view_filters.rs:10-15 | `true` and `false` read back as the flag |
| FiltersJson.AssigneeReadBack | server/src/graphql/takenlijst/types/saved_view_filters.rs:9 | `null` or a quoted id reads back as the optional assignee |
| FiltersJson.DecodeEncode | server/src/graphql/takenlijst/create_saved_view.rs:112 | decoding the stored text of any filters gives those filters back |
| FiltersJson.EncodeDecode | server/src/graphql/takenlijst/saved_views_query.rs:60 | decoding accepts only text that encoding writes |
| FiltersJson.EncodingIsCanonical | server/src/graphql/takenlijst/types/saved_view_filters.rs:6-19 | a text decodes to some filters exactly when it is their encoding |
| SavedViews.FilterRefs | server/src/graphql/takenlijst/create_saved_view.rs:74-101 | the filter checks pass exactly when the assignee (if any) and every tag id exist; a failure is NOT_FOUND |
| SavedViews.CheckTagIds | server/src/graphql/takenlijst/create_saved_view.rs:90-101 | the per-tag loop succeeds exactly when every listed tag exists |
| SavedViews.CheckFilterRefs | server/src/graphql/takenlijst/create_saved_view.rs:74-101 | the statements compute the filter checks |
| SavedViews.CreateViewValidation | server/src/graphql/takenlijst/create_saved_view.rs:24-101 | acceptance happens exactly for a member caller with a valid name not taken in the project (compared by `LOWER(TRIM(name))`) and existing filter references; each refusal carries its own code, in the resolver's order |
| SavedViews.ValidateCreate | server/src/graphql/takenlijst/create_saved_view.rs:24-101 | the statements compute the validation outcome |
| SavedViews.StoreView | server/src/graphql/takenlijst/create_saved_view.rs:119-128 | exactly one saved-view row is written |
| SavedViews.CreateSavedView | server/src/graphql/takenlijst/create_saved_view.rs:14-147 | the resolver's result and tables are the checks followed by one insert holding the encoded filters |
| SavedViews.CreateViewOutcome | server/src/graphql/takenlijst/create_saved_view.rs:14-147 | an error leaves every table as it was; only the saved-view table changes |
| SavedViews.UpdateViewValidation | server/src/graphql/takenlijst/mutations/update_saved_view.rs:25-145 | no login, unknown caller row, missing view, non-member and stale token are refused in that order; past those checks it succeeds exactly when the name check and the filter check both pass, a refused name giving VALIDATION_FAILED and then a filter naming a missing row NOT_FOUND; acceptance yields the new normalised name or the stored one, and the new encoded filters or the stored text |
| SavedViews.UpdatedName | server/src/graphql/takenlijst/mutations/update_saved_view.rs:64-100 | a supplied name is accepted exactly when valid and not taken by another view of the project; no name keeps the stored one |
| SavedViews.UpdatedFilters | server/src/graphql/takenlijst/mutations/update_saved_view.rs:102-147 | supplied filters are accepted exactly when their references exist, and stored encoded; no filters keep the stored text |
| SavedViews.ValidateUpdate | server/src/graphql/takenlijst/mutations/update_saved_view.rs:25-145 | the statements compute the validation outcome |
| SavedViews.UpdateSavedView | server/src/graphql/takenlijst/mutations/update_saved_view.rs:14-181 | the resolver's result and tables are the checks, the update, and decoding of the reread text |
| SavedViews.UpdateViewOutcome | server/src/graphql/takenlijst/mutations/update_saved_view.rs:14-181 | an error other than the internal one of an unreadable stored filter leaves every table as it was; only the saved-view table changes |
| SavedViews.DefaultsWithout | server/src/graphql/takenlijst/delete_saved_view.rs:50-55 | exactly the default pointers naming other views remain, unchanged |
| SavedViews.DeleteSavedView | server/src/graphql/takenlijst/delete_saved_view.rs:13-63 | the resolver's result and tables are the checks, then removal of the default pointers naming the view and of the view |
| SavedViews.DeleteViewOutcome | server/src/graphql/takenlijst/delete_saved_view.rs:13-63 | an error leaves every table as it was; only the saved-view and default-view tables change; success removes exactly the existing view's row |
| SavedViews.SetProjectDefaultSavedView | server/src/graphql/takenlijst/set_project_default_saved_view.rs:13-72 | the resolver's result and tables are the checks, then pointing the default at a view of the project or clearing it |
| SavedViews.SetDefaultOutcome | server/src/graphql/takenlijst/set_project_default_saved_view.rs:13-72 | an error leaves every table as it was; only the default-view table changes, and only at the given project |
| SavedViews.CreatedViewReadsBack | server/src/graphql/takenlijst/create_saved_view.rs:103-147 | a created view is stored under a fresh id with the normalised name and the caller as creator, and its stored text decodes to the filters given |
| SavedViews.InsertKeepsNamesUnique | server/src/graphql/takenlijst/create_saved_view.rs:57-72 | inserting a view whose name key is free in its project keeps name keys unique per project |
| SavedViews.ReplaceKeepsNamesUnique | server/src/graphql/takenlijst/mutations/update_saved_view.rs:79-95 | replacing a view keeping its key, or taking a key free among the project's other views, keeps keys unique |
| SavedViews.CreateKeepsViewNamesUnique | server/src/graphql/takenlijst/create_saved_view.rs:57-128 | creation keeps view names unique per project |
| SavedViews.UpdateWritesOneRow | server/src/graphql/takenlijst/mutations/update_saved_view.rs:149-158 | an accepted update replaces only the view's row |
| SavedViews.UpdateKeepsViewNamesUnique | server/src/graphql/takenlijst/mutations/update_saved_view.rs:64-158 | an update keeps view names unique per project |
| SavedViews.CreateKeepsFiltersReadable | server/src/graphql/takenlijst/create_saved_view.rs:112-128 | creation keeps every stored filters text decodable |
| SavedViews.UpdateKeepsFiltersReadable | server/src/graphql/takenlijst/mutations/update_saved_view.rs:102-158 | an update keeps every stored filters text decodable |
| SavedViews.ReadableUpdateAnswers | server/src/graphql/takenlijst/mutations/update_saved_view.rs:160-181 | with decodable stored texts an update never ends in the internal error and answers with the filters given or else those stored |
| SavedViews.UndecodableFiltersStillWritten | server/src/graphql/takenlijst/mutations/update_saved_view.rs:149-171 | an undecodable stored text makes the answer an internal error although the new name and stamp are already written |
| SavedViews.StaleViewWriteRefused | server/src/graphql/takenlijst/mutations/update_saved_view.rs:56-61 | a stale token from a member is refused with CONFLICT_STALE_WRITE and nothing changes |
| SavedViews.UpdateKeepsOmittedFields | server/src/graphql/takenlijst/mutations/update_saved_view.rs:64-158 | an update keeps project, creator and creation stamp, and an omitted name or filters keep the stored ones |
| SavedViews.DeleteLeavesNoDanglingDefault | server/src/graphql/takenlijst/delete_saved_view.rs:50-62 | deleting removes the view and exactly the default pointers naming it, so no pointer dangles |
| SavedViews.SetDefaultMeaning | server/src/graphql/takenlijst/set_project_default_saved_view.rs:39-71 | a view of the project becomes its default, no view clears it, and any other view is NOT_FOUND with nothing changed |
| SavedViews.SetDefaultIdempotent | server/src/graphql/takenlijst/set_project_default_saved_view.rs:55-69 | setting the same default twice is the same as once |
| SavedViews.SetDefaultKeepsDefaultsSound | server/src/graphql/takenlijst/set_project_default_saved_view.rs:39-69 | every default pointer keeps naming a view of its own project |
| Refresh.Sextet | server/src/auth/refresh.rs:48 | every 6-bit value maps to a character of the URL-safe alphabet |
| Refresh.SextetValue | server/src/auth/refresh.rs:48 | every alphabet character stands for a 6-bit value |
| Refresh.Encode | server/src/auth/refresh.rs:48 | the unpadded encoding has four characters per three bytes (two or three for a tail) and uses only the URL-safe alphabet |
| Refresh.Token | server/src/auth/refresh.rs:45-49 | a token from 32 random bytes is 43 URL-safe characters |
| Refresh.WithoutToken | server/src/auth/refresh.rs:20-27 | exactly the rows not holding the token remain, unchanged |
| Refresh.Create | server/src/auth/refresh.rs:8-17 | one new row under a fresh id holds the new token for the user, which is returned; nothing else changes |
| Refresh.Delete | server/src/auth/refresh.rs:20-27 | every row holding the token is removed and their number returned |
| Refresh.Rotate | server/src/auth/refresh.rs:30-43 | an unknown token gives None and changes nothing; a known one is deleted everywhere and a new token is issued to the user of a row that held it |
| Refresh.SextetRoundTrip | server/src/auth/refresh.rs:48 | reading back a 6-bit value's character gives the value |
| Refresh.DecodeEncode | server/src/auth/refresh.rs:48 | decoding an encoding gives the bytes back |
| Refresh.TokensDistinct | server/src/auth/refresh.rs:45-49 | different random bytes give different tokens |
| Refresh.DeleteCount | server/src/auth/refresh.rs:20-27 | after deletion no row holds the token and the table shrank by exactly the number of rows that held it |
| Refresh.RotatedMeaning | server/src/auth/refresh.rs:37-39 | after a rotation the user holds the new token in exactly the fresh row and every other row is one that did not hold the old token |
| Refresh.DeleteUnknownToken | server/src/auth/refresh.rs:20-27 | deleting a token no row holds changes nothing |
| RateLimit.IsLoginOperation | server/src/server/rate_limit.rs:37-44 | only a JSON body with a string query long enough to contain "mutation" counts as a login |
| RateLimit.Recent | server/src/server/rate_limit.rs:63 | the kept instants are exactly those after the window start |
| RateLimit.Attempt | server/src/server/rate_limit.rs:61-75 | the limit is exceeded exactly when a stored list has ten or more instants inside the window; an admitted attempt is appended; a new address starts with just this attempt; the list never grows past ten |
| RateLimit.LoginLimiter.constructor | server/src/server/rate_limit.rs:21 | the shared map starts empty |
| RateLimit.LoginLimiter.Retain | server/src/server/rate_limit.rs:63 | the in-place retain keeps exactly the recent instants, in order |
| RateLimit.LoginLimiter.Handle | server/src/server/rate_limit.rs:24-90 | an unreadable body is a 400 and a non-login request is forwarded, both with the map unchanged; a login attempt updates only its address's list and is answered 429 with `Retry-After: 60` exactly when the limit was exceeded |
| RateLimit.RecentAppend | server/src/server/rate_limit.rs:63 | filtering distributes over concatenation |
| RateLimit.RecentTwice | server/src/server/rate_limit.rs:63 | filtering with a later start after an earlier one is filtering with the later one |
| RateLimit.AttemptKeepsWindow | server/src/server/rate_limit.rs:61-75 | one attempt keeps the stored list equal to the admitted instants inside the window when the clock has not gone back |
| RateLimit.RunKeepsWindow | server/src/server/rate_limit.rs:53-75 | on a monotonic clock the stored list is exactly the admitted attempts inside the window ending at the latest attempt |
| RateLimit.AtMostTenPerWindow | server/src/server/rate_limit.rs:17-18 | at every login attempt at most ten attempts from that address were let through in the sixty seconds ending there |
| RateLimit.RunBounded | server/src/server/rate_limit.rs:66-71 | the stored list never holds more than ten instants |
| GqlErrors.Strings | mobileapp/src/gqlErrors.ts:12-14 | a code is collected from a legacy array entry exactly when it is one of its string values |
| GqlErrors.EntriesCodes | mobileapp/src/gqlErrors.ts:7-16 | a code is collected from the entries exactly when some entry contributes it |
| GqlErrors.IndexOf | mobileapp/src/gqlErrors.ts:20 | the first position of a value holds it and no earlier position does |
| GqlErrors.Dedup | mobileapp/src/gqlErrors.ts:20 | `Array.from(new Set(...))` keeps exactly the values present, each once |
| GqlErrors.GetErrorCodes | mobileapp/src/gqlErrors.ts:3-21 | the statements compute the deduplicated codes |
| GqlErrors.CollectEntries | mobileapp/src/gqlErrors.ts:8-15 | the loop over the entries pushes their codes in order |
| GqlErrors.PushStrings | mobileapp/src/gqlErrors.ts:13 | the inner loop pushes the string values in order |
| GqlErrors.Unique | mobileapp/src/gqlErrors.ts:20 | the set-based pass computes the order-keeping deduplication |
| GqlErrors.HasCode | mobileapp/src/gqlErrors.ts:23-24 | an error has a code exactly when the code was collected from it |
| GqlErrors.IsOfflineError | mobileapp/src/gqlErrors.ts:26-36 | reading the network error fails exactly on `null`/`undefined`; otherwise the verdict is true exactly when there is a network error whose message contains "Network request failed" or "Failed to fetch" or whose status is 0 |
| GqlErrors.OfflinePatterns | mobileapp/src/gqlErrors.ts:26-36 | either phrase anywhere in the message, or status 0, gives true; a message with neither phrase and a status other than 0, no network error, or a falsy error gives false |
| GqlErrors.StringsAppend | mobileapp/src/gqlErrors.ts:13 | one more value adds its string, if it is one, at the end |
| GqlErrors.EntriesCodesAppend | mobileapp/src/gqlErrors.ts:8-15 | one more entry adds its codes at the end |
| GqlErrors.DedupKeepsFirstOrder | mobileapp/src/gqlErrors.ts:20 | the codes keep the order of their first occurrences |
| GqlErrors.FirstOrderExtends | mobileapp/src/gqlErrors.ts:20 | appending keeps the order so far, and a new value goes after all of it |
| GqlErrors.IndexOfPrefix | mobileapp/src/gqlErrors.ts:20 | a value's first position in a prefix is its first position in the whole |
| GqlErrors.FalsyHasNoCodes | mobileapp/src/gqlErrors.ts:5 | a falsy error has no codes and no code matches it |
| RefreshState.RemoveFirst | mobileapp/src/api/refreshTokenState.ts:17-22 | removing a listener takes away exactly one occurrence of it when present, and changes nothing otherwise |
| RefreshState.RefreshTokenStateManager.constructor | mobileapp/src/api/refreshTokenState.ts:6-7 | the flag starts false with no listeners |
| RefreshState.RefreshTokenStateManager.Set | mobileapp/src/api/refreshTokenState.ts:10-13 | the flag is stored, so `Get` returns it, and every listener is called once with it, in subscription order |
| RefreshState.RefreshTokenStateManager.Subscribe | mobileapp/src/api/refreshTokenState.ts:14-15 | the listener is appended, even when already present |
| RefreshState.RefreshTokenStateManager.Unsubscribe | mobileapp/src/api/refreshTokenState.ts:17-22 | the first occurrence of the listener is removed and the flag is kept |
| RefreshState.IndexOf | mobileapp/src/api/refreshTokenState.ts:18 | -1 exactly when absent, otherwise the first position |
| RefreshState.SpliceIsRemoveFirst | mobileapp/src/api/refreshTokenState.ts:18-20 | splicing out the first occurrence is removing the first occurrence |
| RefreshState.SubscribeUnsubscribe | mobileapp/src/api/refreshTokenState.ts:14-22 | subscribing a new listener and unsubscribing it restores the list |
| RefreshState.DoubleSubscription | mobileapp/src/api/refreshTokenState.ts:14-22 | a listener subscribed twice stays once after one unsubscribe and is gone after the second; a third changes nothing |
| TagName.Collapse | mobileapp/src/components/TagManager.tsx:38 | every white-space run becomes a single space; no two white-space characters remain adjacent; non-space ends are kept |
| TagName.TrimStartOfRun | mobileapp/src/components/TagManager.tsx:37 | trimming the front of a white-space run followed by a word leaves the word |
| TagName.TrimStartBeforeWordEnd | mobileapp/src/components/TagManager.tsx:37 | trimming the front of a text that ends in a word does not reach what follows it |
| TagName.TrimEndOfRun | mobileapp/src/components/TagManager.tsx:37 | trimming the end of a word followed by a white-space run leaves the word |
| TagName.TrimAroundText | mobileapp/src/components/TagManager.tsx:37 | trimming a text that starts and ends in a word, with white space around it, gives that text |
| TagName.CollapseConcat | mobileapp/src/components/TagManager.tsx:38 | a text that ends in a word collapses independently of what follows it |
| TagName.CollapseRun | mobileapp/src/components/TagManager.tsx:38 | a non-empty white-space run in front of a word becomes exactly one space |
| TagName.CollapseSplitsAtRun | mobileapp/src/components/TagManager.tsx:38 | each maximal white-space run becomes exactly one space in its own place: `a + run + b` collapses to `a` collapsed, one space, `b` collapsed |
| TagName.NormalizeSplitsAtRun | mobileapp/src/components/TagManager.tsx:35-40 | two words around a white-space run, with white space on either side and no leading '#', normalise to the two collapsed words joined by one space |
| TagName.NormalizeTwoWords | mobileapp/src/components/TagManager.tsx:35-40 | two words without white space, with any white space before, between and after them, normalise to the words joined by one space |
| TagName.StripHashes | mobileapp/src/components/TagManager.tsx:39 | exactly the leading '#'s are dropped |
| TagName.NormalizeTagName | mobileapp/src/components/TagManager.tsx:35-40 | the name never starts with '#' or ends with white space, its only white space is single spaces, and its other characters are the input's in order less some leading '#'s (where the spaces go: `NormalizeSplitsAtRun`) |
| TagName.HandleCreateTag | mobileapp/src/components/TagManager.tsx:94-101 | the create call is made, with the normalised name, exactly when the trimmed input has a character other than '#'; otherwise the empty-name message is shown |
| TagName.HandleRenameTag | mobileapp/src/components/TagManager.tsx:108-116 | nothing happens without a tag being edited; otherwise the rename call is made with that tag and the normalised name exactly when it is non-empty |
| TagName.TrimKeepsNonSpace | mobileapp/src/components/TagManager.tsx:37 | trimming removes only white space |
| TagName.CollapseKeepsNonSpace | mobileapp/src/components/TagManager.tsx:38 | collapsing keeps every non-space character in order |
| TagName.StripKeepsNonSpace | mobileapp/src/components/TagManager.tsx:39 | stripping drops only leading '#'s from the non-space characters |
| TagName.NormalizedKeepsNonSpace | mobileapp/src/components/TagManager.tsx:35-40 | the non-space characters survive the three steps, less the stripped '#'s |
| TagName.CollapseWithoutSpace | mobileapp/src/components/TagManager.tsx:38 | collapsing a text without white space changes nothing |
| TagName.CollapseKeepsSpace | mobileapp/src/components/TagManager.tsx:38 | white space anywhere leaves a space after collapsing |
| TagName.EmptyExactlyWhenOnlyHashes | mobileapp/src/components/TagManager.tsx:35-40 | the normalised name is empty exactly when the trimmed input consists of '#'s only |
| TagName.HashThenSpaceKeepsSpace | mobileapp/src/components/TagManager.tsx:37-39 | "# foo" normalises to " foo": stripping after trimming leaves a leading space |
| AppMeta.GetAppId | webapp/src/appMeta.ts:1-3 | the id is the build setting when non-empty, "placeholder" otherwise, and never empty |
| AppMeta.SplitCamel | webapp/src/appMeta.ts:8 | a space is inserted at every lower/digit-to-upper boundary, one per boundary, no other character changes, and no boundary remains |
| AppMeta.WordAt | webapp/src/appMeta.ts:9 | the longest separator-free prefix, stopped by a separator |
| AppMeta.Words | webapp/src/appMeta.ts:9-10 | every split part is a non-empty separator-free word |
| AppMeta.Capitalize | webapp/src/appMeta.ts:11 | same length; first character upper-cased, the rest lower-cased |
| AppMeta.CapitalizeAll | webapp/src/appMeta.ts:11 | each part is capitalised |
| AppMeta.GetAppTitle | webapp/src/appMeta.ts:14-16 | the title of the build setting when non-empty, "Placeholder" otherwise |
| AppMeta.ToTitleCase | webapp/src/appMeta.ts:5-12 | the words of a title are the capitalised words of the camel-split id |
| AppMeta.WordsKeepLetters | webapp/src/appMeta.ts:9-10 | the words together are the input less its separators |
| AppMeta.TitleSpacing | webapp/src/appMeta.ts:5-12 | a title's only separators are single spaces between words |
| AppMeta.WordsOfJoin | webapp/src/appMeta.ts:9-11 | splitting words joined by single spaces gives the words back |
| AppMeta.SplitCamelWithoutBoundary | webapp/src/appMeta.ts:8 | a text without camel-case boundaries is left alone |
| AppMeta.CapitalizeIdempotent | webapp/src/appMeta.ts:11 | capitalising twice is capitalising once |
| AppMeta.TitleIdempotent | webapp/src/appMeta.ts:5-12 | a title is its own title |
| AppMeta.PlaceholderTitle | webapp/src/appMeta.ts:14-16 | the placeholder id's title is "Placeholder" |
| SharedTime.GetIanaTimezone | shared/time/index.ts:13-21 | the device's zone when it is a non-empty string, "UTC" otherwise (also when the lookup throws), never empty |
| SharedTime.WithTimezone | shared/time/index.ts:29-35 | every input key is kept and only `timezone` is set: the explicit argument, else a non-nullish existing value, else the device zone; the result's timezone is never nullish |
| SharedTime.MergeTwiceKeeps | shared/time/index.ts:33 | merging again without an explicit zone keeps the first merge's zone |
| SharedTime.ExplicitOverrides | shared/time/index.ts:33-34 | an explicit zone overrides an earlier merge |
| SharedTime.OnlyTimezoneChanges | shared/time/index.ts:34 | apart from `timezone` the result equals the input |
| Text.Trim | server/src/graphql/takenlijst/mutations/create_task.rs:58 | the trimmed text has no white space at either end, is empty exactly when the input is all white space, and has only the input's characters |
| Text.TrimIdempotent | mobileapp/src/components/TagManager.tsx:37 | trimming twice trims nothing more |

Four functions have no row of their own because their meaning is stated by
the members listed above. `RefreshState.RefreshTokenStateManager.Get`
reads the flag, and the contracts of `Set`, `Subscribe` and `Unsubscribe`
say what it then returns. `FiltersJson.Encode` and `FiltersJson.Decode`
are specified together by `FiltersJson.DecodeEncode`,
`FiltersJson.EncodeDecode` and `FiltersJson.EncodingIsCanonical`.
`UpdateSeries.UpdateOutcome` is specified by the lemmas about it:
`UpdateSeries.UpdateErrorChangesNothing` and the refusal lemmas beside it.

## Left out

- Time zones: the IANA database is an oracle (`Clock.Zone`). Its answers
  are constrained only by the consistency the classifier needs.
- Recurrence: RRULE expansion by the `rrule` crate is an oracle that yields
  a finite prefix of occurrences, or a parse failure.
- Identifiers: UUIDs are fresh counter values (`Store.nextId`). The random
  bytes of a refresh token (`OsRng`) are a parameter.
- Plumbing: JWT handling, HTTP/axum routing, the GraphQL schema and the
  authentication context are left out. A resolver receives the caller's
  username.
- Database errors: only a missing row is modelled. Other SQLite failures
  are not, and neither is which row `fetch_one` picks among several.
- Timestamps: `CURRENT_TIMESTAMP` (second precision) and the millisecond
  stamps are parameters. Two writes within one second therefore keep the
  same concurrency token.
- Text comparison: SQLite compares date text as strings. The model compares
  parsed dates, and a malformed stored date is never "upcoming".
- Case mapping: Rust `to_lowercase`, JavaScript `toUpperCase`/`toLowerCase`
  and SQLite `LOWER` are modelled as ASCII-only case mapping. SQLite `TRIM`
  removes only spaces.
- Normalisers: `normalize_project_name` and `normalize_tag_name`
  are not defined in any file of this model (`server/src/db/helpers.rs`
  holds only `fetch_one` and `execute`). They are arbitrary functions
  supplied by `Env`. Nothing is assumed of them, and every
  property is stated in terms of their result.
- `Tags.RenameTag`: the `tags` update trigger is modelled by its effect
  only. The stamp it writes is `Env.tagTouchStamp`, an arbitrary value,
  so the model does not promise that it differs from the old
  `updated_at` (server/src/db/tests_tags.rs:51-87 expects it to).
- `Tasks.AbandonTask`: the model assumes that the `tasks` table has no
  update trigger that stamps `updated_at`. The schema is not part of this
  model; other writes to `tasks` set the column themselves
  (server/src/graphql/takenlijst/mutations/update_recurring_series.rs:473),
  which suggests there is none. `Tasks.AbandonKeepsToken` and
  `Tasks.MarkAbandoned` rest on the same assumption.
- The database runs with foreign keys enforced (`server/src/db/mod.rs:18`,
  `:30`), but the schema is not part of this model, so what a tag delete
  or a merging rename does to `task_tags` and `series_tags` rows that name
  the removed tag (cascade or refusal) is left out: the model leaves the
  link tables unchanged.
- `UpdateSeries.UpdateRecurringSeries`: the `.or` merge means a field
  cannot be cleared. The merged assignee is checked against the users
  table, not against project membership, as in the code.
- Series title: it is not validated, as in the code.
- Out-of-range times: a time-only update whose time is out of range gives
  an error without a code, as in the code.
- Default tags: a series' default tags are a set, so their order is not
  modelled. A repeated id in the supplied list is merged, whereas the
  source's plain INSERT would hit the primary key.
- `UpdateSeries.ApplyUpdate`: on an error it restores only the four tables
  an update writes (series, series tags, tasks, task tags). It does not
  restore the whole database as SQLite's rollback does.
- `FiltersJson.Decode`: it reads only the compact layout that the server
  itself writes. JSON from elsewhere, with white space or reordered fields,
  is not modelled.
- The serialisation error path of the filters cannot occur and is not
  modelled.
- The serde form of `TaskStatus` is modelled as the lower-case names.
- Rate limiter concurrency: the `DashMap` is modelled as a map updated by
  one request at a time.
- `Refresh.Rotate`: database errors during rotation are collapsed into
  `None`.
- `RateLimit.IsLoginOperation`: its contract states only a necessary
  condition for a login, not the full substring test.
- `GqlErrors.IsOfflineError`: reading `networkError` of `null` or
  `undefined` throws, and the model answers `None` there instead of an
  exception.
- `GqlErrors.IsOfflineError`: a truthy `message` that is not a string
  passes through `String()` in the source. The model reads only string
  messages.
- `RefreshState.RefreshTokenStateManager.Set`: a listener that subscribes
  or unsubscribes while `set` is notifying is not modelled.
- Tag names: the white-space regular expression is modelled as splitting
  at maximal runs of white space. Characters are Unicode scalar values, not
  UTF-16 code units.
- `AppMeta`: `charAt` and `slice` work on characters rather than UTF-16
  code units. The `Intl` and `import.meta.env` values are parameters.
- `SharedTime.WithTimezone`: `variables` may be omitted. An explicit
  `null` for `variables` is not modelled.
- `RateLimit`: instants on the monotonic clock are integers supplied by the
  caller.
