// Updating a recurring series
// (server/src/graphql/takenlijst/mutations/update_recurring_series.rs).
// The resolver validates the supplied fields against the stored row, then,
// in one transaction, rewrites the series row and its default tags and
// either regenerates the series' upcoming `todo` tasks (when the rule, the
// start or the deadline offset changed) or patches every `todo` task of the
// series with the new title, description, assignee and tags.

module UpdateSeries {
  import opened Common
  import opened Clock
  import opened Classifier
  import opened Db
  import opened Guard
  import opened RuleText
  import opened Materialise
  import opened TopUp
  import opened CreateSeries

  /// `UpdateSeriesInput`: every field is optional; the time zone is not.
  datatype UpdateSeriesInput = UpdateSeriesInput(
    title: Option<string>,
    description: Option<string>,
    assigneeId: Option<Id>,
    rrule: Option<string>,
    dtstartDate: Option<DateText>,
    dtstartTime: Option<I32>,
    deadlineOffset: Option<I32>,
    defaultTagIds: Option<seq<Id>>,
    timezone: string)

  /// The series row after the update. Absent fields keep their stored
  /// value; an absent description, assignee or time keeps the stored one
  /// (`Option::or`), so none of them can be cleared. The rule is normalised
  /// for the merged start time and `updated_at` is the millisecond stamp.
  function UpdatedRow(s: Series, input: UpdateSeriesInput, stamp: string): Series
  {
    var time := input.dtstartTime.Or(s.dtstartTime);
    Series(s.projectId, s.createdBy,
           input.title.UnwrapOr(s.title),
           input.description.Or(s.description),
           input.assigneeId.Or(s.assigneeId),
           NormalizeRule(input.rrule.UnwrapOr(s.rrule), time.Some?),
           input.dtstartDate.UnwrapOr(s.dtstartDate),
           time,
           input.deadlineOffset.UnwrapOr(s.deadlineOffset),
           s.createdAt, stamp)
  }

  /// The checks made on a supplied start date, with the merged start time:
  /// a malformed date, a date before today in the zone, a time outside the
  /// day, or a time today that is not one instant at or after now.
  predicate StartRefused(z: Zone, now: Instant, date: DateText, time: Option<I32>)
  {
    date.Malformed? ||
    date.day < z.localDay(now) ||
    (time.Some? &&
     (!(0 <= time.value < 1440) ||
      (date.day == z.localDay(now) && !StartsNotBeforeNow(z, now, date.day, time.value))))
  }

  /// The caller may write series `sid`: a known caller, a known zone, an
  /// existing series, a current `updated_at` token and membership of the
  /// series' project, checked in that order.
  predicate SeriesWritable(t: Tables, claims: Option<string>, sid: Id, input: UpdateSeriesInput,
                           lastKnown: string, env: Env)
  {
    KnownCaller(t, claims) && env.zones(input.timezone).Some? && sid in t.series &&
    !Stale(t.series[sid].updatedAt, lastKnown) &&
    IsMember(t.projects, t.members, t.users[claims.value], t.series[sid].projectId)
  }

  /// The checks of the supplied fields refused with VALIDATION_FAILED: an
  /// offset within a year of minutes, a rule that parses, and a start date
  /// that `StartRefused` lets through with the merged start time.
  predicate ChangesValid(s: Series, input: UpdateSeriesInput, z: Zone, env: Env)
  {
    (input.deadlineOffset.Some? ==> 0 <= input.deadlineOffset.value <= MaxDeadlineOffset) &&
    (input.rrule.Some? ==> env.rules.parses(input.rrule.value)) &&
    (input.dtstartDate.Some? ==>
       !StartRefused(z, env.now, input.dtstartDate.value, input.dtstartTime.Or(s.dtstartTime)))
  }

  /// The validation phase, in the resolver's order; the result is the
  /// caller's user id.
  function UpdateSeriesValidation(t: Tables, claims: Option<string>, sid: Id, input: UpdateSeriesInput,
                                  lastKnown: string, env: Env): (r: Result<Id>)
    ensures r.Ok? ==> claims.Some? && claims.value in t.users && r.value == t.users[claims.value]
    ensures r.Ok? ==> env.zones(input.timezone).Some? && sid in t.series &&
                      t.series[sid].updatedAt == lastKnown &&
                      IsMember(t.projects, t.members, r.value, t.series[sid].projectId)
    ensures r.Ok? && input.deadlineOffset.Some? ==> 0 <= input.deadlineOffset.value <= MaxDeadlineOffset
    ensures r.Ok? && input.rrule.Some? ==> env.rules.parses(input.rrule.value)
    ensures r.Ok? && input.dtstartDate.Some? ==>
              !StartRefused(env.zones(input.timezone).value, env.now, input.dtstartDate.value,
                            input.dtstartTime.Or(t.series[sid].dtstartTime))
    ensures r.Ok? && input.assigneeId.Or(t.series[sid].assigneeId).Some? ==>
              UserExists(t.users, input.assigneeId.Or(t.series[sid].assigneeId).value)
    ensures r.Ok? && input.defaultTagIds.Some? ==> AllTagsExist(t.tags, input.defaultTagIds.value)
    ensures claims.None? ==> r == Err(AuthenticationRequired)
    ensures claims.Some? && claims.value !in t.users ==> r == Err(QueryFailed)
    ensures KnownCaller(t, claims) && env.zones(input.timezone).None? ==> r == Err(ValidationFailed)
    ensures KnownCaller(t, claims) && env.zones(input.timezone).Some? && sid !in t.series ==> r == Err(NotFound)
    ensures (KnownCaller(t, claims) && env.zones(input.timezone).Some? && sid in t.series &&
             Stale(t.series[sid].updatedAt, lastKnown)) ==> r == Err(ConflictStaleWrite)
    ensures (KnownCaller(t, claims) && env.zones(input.timezone).Some? && sid in t.series &&
             !Stale(t.series[sid].updatedAt, lastKnown) &&
             !IsMember(t.projects, t.members, t.users[claims.value], t.series[sid].projectId)) ==>
              r == Err(PermissionDenied)
    ensures (SeriesWritable(t, claims, sid, input, lastKnown, env) &&
             !ChangesValid(t.series[sid], input, env.zones(input.timezone).value, env)) ==>
              r == Err(ValidationFailed)
    ensures (SeriesWritable(t, claims, sid, input, lastKnown, env) &&
             ChangesValid(t.series[sid], input, env.zones(input.timezone).value, env) &&
             !ReferencesExist(t, input.assigneeId.Or(t.series[sid].assigneeId),
                              input.defaultTagIds.UnwrapOr([]))) ==>
              r == Err(NotFound)
    ensures r.Ok? <==> SeriesWritable(t, claims, sid, input, lastKnown, env) &&
                       ChangesValid(t.series[sid], input, env.zones(input.timezone).value, env) &&
                       ReferencesExist(t, input.assigneeId.Or(t.series[sid].assigneeId),
                                       input.defaultTagIds.UnwrapOr([]))
  {
    match CallerId(t.users, claims)
    case Err(e) => Err(e)
    case Ok(u) =>
      if env.zones(input.timezone).None? then Err(ValidationFailed)
      else if sid !in t.series then Err(NotFound)
      else
        var s := t.series[sid];
        var z := env.zones(input.timezone).value;
        var assignee := input.assigneeId.Or(s.assigneeId);
        if Stale(s.updatedAt, lastKnown) then Err(ConflictStaleWrite)
        else if RequireMember(t.projects, t.members, u, s.projectId).Err? then Err(PermissionDenied)
        else if input.deadlineOffset.Some? && !(0 <= input.deadlineOffset.value <= MaxDeadlineOffset) then
          Err(ValidationFailed)
        else if input.rrule.Some? && !env.rules.parses(input.rrule.value) then Err(ValidationFailed)
        else if input.dtstartDate.Some? &&
                StartRefused(z, env.now, input.dtstartDate.value, input.dtstartTime.Or(s.dtstartTime)) then
          Err(ValidationFailed)
        else if assignee.Some? && !UserExists(t.users, assignee.value) then Err(NotFound)
        else if input.defaultTagIds.Some? && !AllTagsExist(t.tags, input.defaultTagIds.value) then Err(NotFound)
        else Ok(u)
  }

  // ---------------------------------------------------------------------
  // The writes, as functions of the tables
  // ---------------------------------------------------------------------

  /// The default tags the resolver returns and regenerated tasks receive:
  /// the supplied list, else the stored links.
  function FinalTags(seriesTags: set<(Id, Id)>, sid: Id, input: UpdateSeriesInput): set<Id>
  {
    if input.defaultTagIds.Some? then TagSet(input.defaultTagIds.value) else SeriesTags(seriesTags, sid)
  }

  /// The series UPDATE, and when tags are supplied the DELETE of the
  /// series' links followed by an INSERT per supplied tag.
  function WithRewrittenSeries(t: Tables, sid: Id, row: Series, tagIds: Option<seq<Id>>): Tables
  {
    t.(series := t.series[sid := row],
       seriesTags := if tagIds.None? then t.seriesTags
                     else (set p | p in t.seriesTags && p.0 != sid) + SeriesLinks(sid, tagIds.value))
  }

  predicate NeedsRegeneration(input: UpdateSeriesInput)
  {
    input.rrule.Some? || input.dtstartDate.Some? || input.dtstartTime.Some? || input.deadlineOffset.Some?
  }

  predicate TemplateChanged(input: UpdateSeriesInput)
  {
    input.title.Some? || input.description.Some? || input.assigneeId.Some? || input.defaultTagIds.Some?
  }

  /// A `todo` task of the series scheduled from now on: on a later date
  /// than today in the zone, or today without a time or at a time not
  /// before the current minute. These are the rows regeneration deletes.
  predicate FromNow(task: Task, sid: Id, today: Day, minute: MinuteOfDay)
  {
    task.seriesId == Some(sid) && task.status == Todo &&
    task.scheduledDate.Some? && task.scheduledDate.value.Iso? &&
    (task.scheduledDate.value.day > today ||
     (task.scheduledDate.value.day == today &&
      (task.scheduledTime.None? || task.scheduledTime.value >= minute)))
  }

  function FromNowIds(tasks: map<Id, Task>, sid: Id, today: Day, minute: MinuteOfDay): set<Id>
  {
    set k | k in tasks && FromNow(tasks[k], sid, today, minute)
  }

  /// The two DELETE statements of the regeneration: the upcoming tasks'
  /// tag links, then the tasks.
  function Pruned(t: Tables, sid: Id, today: Day, minute: MinuteOfDay): Tables
  {
    var gone := FromNowIds(t.tasks, sid, today, minute);
    t.(tasks := map k | k in t.tasks && k !in gone :: t.tasks[k],
       taskTags := set p | p in t.taskTags && p.0 !in gone)
  }

  /// What regenerated tasks copy: the merged fields, and the caller as
  /// their author.
  function RegenTemplate(row: Series, sid: Id, u: Id): Template
  {
    Template(row.projectId, u, row.assigneeId, sid, row.title, row.description,
             row.dtstartTime, row.deadlineOffset)
  }

  /// Regeneration on tables `t` whose series row is already `row`: the
  /// upcoming tasks go, then the first five occurrences not before now are
  /// seeded. A start date or time chrono rejects is an uncoded error; no
  /// tasks are seeded when the start is not one unambiguous instant; a
  /// rule set that does not parse is VALIDATION_FAILED.
  function Regenerate(t: Tables, base: Id, sid: Id, row: Series, u: Id, tags: set<Id>,
                      tzName: string, env: Env): Result<Tables>
    requires env.zones(tzName).Some?
  {
    var z := env.zones(tzName).value;
    var pruned := Pruned(t, sid, z.localDay(env.now), z.localMinute(env.now));
    var start := StartMinute(row.dtstartTime);
    if row.dtstartDate.Malformed? || start.None? then Err(ParseFailed)
    else if !z.resolve(row.dtstartDate.day, start.value).Single? then Ok(pruned)
    else
      var hour := if row.dtstartTime.Some? then start else None;
      match env.rules.expand(row.rrule, tzName, row.dtstartDate.day, hour)
      case None => Err(ValidationFailed)
      case Some(occs) =>
        Ok(AfterRun(pruned, base, RegenTemplate(row, sid, u), z, Seeded(occs, env.now, SeedCount),
                    tags, env.secondStamp))
  }

  /// The ids of every `todo` task of the series.
  function TodoIds(tasks: map<Id, Task>, sid: Id): set<Id>
  {
    set k | k in tasks && tasks[k].seriesId == Some(sid) && tasks[k].status == Todo
  }

  function PatchedTask(task: Task, row: Series, stamp: string): Task
  {
    task.(title := row.title, description := row.description, assigneeId := row.assigneeId, updatedAt := stamp)
  }

  /// Every link of a task in `ids` replaced by one link per tag in `tags`.
  function Relinked(links: set<(Id, Id)>, ids: set<Id>, tags: set<Id>): set<(Id, Id)>
  {
    (set p | p in links && p.0 !in ids) + (set k, g | k in ids && g in tags :: (k, g))
  }

  /// The patch when no regeneration is needed: the series' `todo` tasks
  /// take the new title, description and assignee, and when tags were
  /// supplied their links are replaced by the new default tags.
  function Patched(t: Tables, sid: Id, row: Series, tags: set<Id>, relink: bool, stamp: string): Tables
  {
    var todo := TodoIds(t.tasks, sid);
    t.(tasks := map k | k in t.tasks :: if k in todo then PatchedTask(t.tasks[k], row, stamp) else t.tasks[k],
       taskTags := if relink then Relinked(t.taskTags, todo, tags) else t.taskTags)
  }

  /// The transaction once validation has accepted caller `u`; an error
  /// inside it rolls every write back.
  function UpdateAfterValidation(t: Tables, base: Id, sid: Id, input: UpdateSeriesInput, u: Id, env: Env)
    : (Result<(Series, set<Id>)>, Tables)
    requires sid in t.series && env.zones(input.timezone).Some?
  {
    var row := UpdatedRow(t.series[sid], input, env.milliStamp);
    var tags := FinalTags(t.seriesTags, sid, input);
    var written := WithRewrittenSeries(t, sid, row, input.defaultTagIds);
    if NeedsRegeneration(input) then
      match Regenerate(written, base, sid, row, u, tags, input.timezone, env)
      case Err(e) => (Err(e), t)
      case Ok(t1) => (Ok((row, tags)), t1)
    else if TemplateChanged(input) then
      (Ok((row, tags)), Patched(written, sid, row, tags, input.defaultTagIds.Some?, env.milliStamp))
    else
      (Ok((row, tags)), written)
  }

  /// What the resolver returns and leaves in the tables when the next
  /// fresh id is `base`.
  function UpdateOutcome(t: Tables, base: Id, claims: Option<string>, sid: Id, input: UpdateSeriesInput,
                         lastKnown: string, env: Env): (Result<(Series, set<Id>)>, Tables)
  {
    match UpdateSeriesValidation(t, claims, sid, input, lastKnown, env)
    case Err(e) => (Err(e), t)
    case Ok(u) => UpdateAfterValidation(t, base, sid, input, u, env)
  }

  // ---------------------------------------------------------------------
  // The resolver
  // ---------------------------------------------------------------------

  /// The statement form of `UpdateSeriesValidation`, proved equal to it: the resolver runs
  /// these statements, and proving them here on their own keeps the
  /// resolver's proof small.
  method ValidateUpdate(t: Tables, claims: Option<string>, sid: Id, input: UpdateSeriesInput,
                        lastKnown: string, env: Env) returns (v: Result<Id>)
    ensures v == UpdateSeriesValidation(t, claims, sid, input, lastKnown, env)
  {
    var caller := CallerId(t.users, claims);
    if caller.Err? {
      return Err(caller.error);
    }
    var u := caller.value;
    var zone := env.zones(input.timezone);
    if zone.None? {
      return Err(ValidationFailed);
    }
    var z := zone.value;
    if sid !in t.series {
      return Err(NotFound);
    }
    var s := t.series[sid];
    if Stale(s.updatedAt, lastKnown) {
      return Err(ConflictStaleWrite);
    }
    if RequireMember(t.projects, t.members, u, s.projectId).Err? {
      return Err(PermissionDenied);
    }
    var time := input.dtstartTime.Or(s.dtstartTime);
    var assignee := input.assigneeId.Or(s.assigneeId);
    if input.deadlineOffset.Some? {
      var offset := input.deadlineOffset.value;
      if offset < 0 || offset > MaxDeadlineOffset {
        return Err(ValidationFailed);
      }
    }
    if input.rrule.Some? && !env.rules.parses(input.rrule.value) {
      return Err(ValidationFailed);
    }
    if input.dtstartDate.Some? {
      var date := input.dtstartDate.value;
      if date.Malformed? {
        return Err(ValidationFailed);
      }
      var today := z.localDay(env.now);
      if date.day < today {
        return Err(ValidationFailed);
      }
      if time.Some? {
        var m := time.value;
        if m < 0 || m >= 1440 {
          return Err(ValidationFailed);
        }
        if date.day == today && !StartsNotBeforeNow(z, env.now, date.day, m) {
          return Err(ValidationFailed);
        }
      }
    }
    if assignee.Some? && !UserExists(t.users, assignee.value) {
      return Err(NotFound);
    }
    if input.defaultTagIds.Some? {
      var tagsOk := CheckTagsExist(t.tags, input.defaultTagIds.value);
      if !tagsOk {
        return Err(NotFound);
      }
    }
    return Ok(u);
  }

  /// The series UPDATE and, when tags are supplied, the replacement of
  /// its tag links.
  method RewriteSeries(db: Store, sid: Id, row: Series, tagIds: Option<seq<Id>>)
    requires db.Valid() && sid in db.series
    modifies db
    ensures db.Valid() && db.nextId == old(db.nextId)
    ensures db.State() == WithRewrittenSeries(old(db.State()), sid, row, tagIds)
  {
    db.series := db.series[sid := row];
    if tagIds.Some? {
      db.seriesTags := (set p | p in db.seriesTags && p.0 != sid) + SeriesLinks(sid, tagIds.value);
    }
  }

  /// The two DELETE statements of the regeneration.
  method PruneSeriesTasks(db: Store, sid: Id, today: Day, minute: MinuteOfDay)
    requires db.Valid()
    modifies db
    ensures db.Valid() && db.nextId == old(db.nextId)
    ensures db.State() == Pruned(old(db.State()), sid, today, minute)
  {
    var gone := FromNowIds(db.tasks, sid, today, minute);
    db.taskTags := set p | p in db.taskTags && p.0 !in gone;
    db.tasks := map k | k in db.tasks && k !in gone :: db.tasks[k];
  }

  /// The regeneration branch. On an error the caller rolls back the tasks
  /// it deleted; the id counter has not moved.
  method RegenerateTasks(db: Store, sid: Id, row: Series, u: Id, tags: set<Id>, tzName: string, env: Env)
    returns (r: Result<()>)
    requires db.Valid() && env.zones(tzName).Some?
    modifies db
    ensures db.Valid()
    ensures r.Err? ==> Regenerate(old(db.State()), old(db.nextId), sid, row, u, tags, tzName, env) == Err(r.error) &&
                       db.nextId == old(db.nextId)
    ensures r.Err? ==> db.State() == old(db.State()).(tasks := db.tasks, taskTags := db.taskTags)
    ensures r.Ok? ==> Regenerate(old(db.State()), old(db.nextId), sid, row, u, tags, tzName, env) == Ok(db.State())
  {
    var z := env.zones(tzName).value;
    PruneSeriesTasks(db, sid, z.localDay(env.now), z.localMinute(env.now));
    if row.dtstartDate.Malformed? {
      return Err(ParseFailed);
    }
    var minute: MinuteOfDay := 0;
    if row.dtstartTime.Some? {
      var clock := TimeOfDay(row.dtstartTime.value);
      if clock.None? {
        return Err(ParseFailed);
      }
      minute := clock.value;
    }
    if !z.resolve(row.dtstartDate.day, minute).Single? {
      return Ok(());
    }
    var hour := if row.dtstartTime.Some? then Some(minute) else None;
    var occs := env.rules.expand(row.rrule, tzName, row.dtstartDate.day, hour);
    if occs.None? {
      return Err(ValidationFailed);
    }
    SeedTasks(db, RegenTemplate(row, sid, u), z, tags, occs.value, env.now, SeedCount, env.secondStamp);
    r := Ok(());
  }

  /// The `todo` tasks' UPDATE and, when tags were supplied, the relinking
  /// of each of them.
  method PatchTodoTasks(db: Store, sid: Id, row: Series, tags: set<Id>, relink: bool, stamp: string)
    requires db.Valid()
    modifies db
    ensures db.Valid() && db.nextId == old(db.nextId)
    ensures db.State() == Patched(old(db.State()), sid, row, tags, relink, stamp)
  {
    var todo := TodoIds(db.tasks, sid);
    db.tasks := map k | k in db.tasks :: if k in todo then PatchedTask(db.tasks[k], row, stamp) else db.tasks[k];
    if relink {
      RelinkTodoTasks(db, todo, tags);
    }
  }

  /// For each task in `ids`: DELETE its links, then INSERT OR IGNORE one
  /// link per tag.
  method RelinkTodoTasks(db: Store, ids: set<Id>, tags: set<Id>)
    requires db.Valid()
    modifies db
    ensures db.Valid() && db.nextId == old(db.nextId)
    ensures db.State() == old(db.State()).(taskTags := Relinked(old(db.taskTags), ids, tags))
  {
    var rest := ids;
    ghost var links0 := db.taskTags;
    RelinkedNone(links0, tags);
    while rest != {}
      invariant rest <= ids
      invariant db.Valid() && db.nextId == old(db.nextId)
      invariant db.State() == old(db.State()).(taskTags := Relinked(links0, ids - rest, tags))
      decreases rest
    {
      var k :| k in rest;
      RelinkStep(links0, ids - rest, k, tags);
      db.taskTags := (set p | p in db.taskTags && p.0 != k) + (set g | g in tags :: (k, g));
      rest := rest - {k};
      assert ids - rest == (ids - (rest + {k})) + {k};
    }
  }

  /// The statements of the resolver past validation.
  method ApplyUpdate(db: Store, sid: Id, input: UpdateSeriesInput, u: Id, env: Env)
    returns (r: Result<(Series, set<Id>)>)
    requires db.Valid() && sid in db.series && env.zones(input.timezone).Some?
    modifies db
    ensures db.Valid()
    ensures (r, db.State()) == UpdateAfterValidation(old(db.State()), old(db.nextId), sid, input, u, env)
  {
    var saved := db.State();
    var row := UpdatedRow(db.series[sid], input, env.milliStamp);
    var tags := FinalTags(db.seriesTags, sid, input);
    RewriteSeries(db, sid, row, input.defaultTagIds);
    if NeedsRegeneration(input) {
      var regen := RegenerateTasks(db, sid, row, u, tags, input.timezone, env);
      if regen.Err? {
        db.Rollback(saved);
        return Err(regen.error);
      }
    } else if TemplateChanged(input) {
      PatchTodoTasks(db, sid, row, tags, input.defaultTagIds.Some?, env.milliStamp);
    }
    r := Ok((row, tags));
  }

  /// The resolver; the reread series row and the final default tags are
  /// its result.
  method UpdateRecurringSeries(db: Store, claims: Option<string>, sid: Id, input: UpdateSeriesInput,
                               lastKnown: string, env: Env) returns (r: Result<(Series, set<Id>)>)
    requires db.Valid()
    modifies db
    ensures db.Valid()
    ensures (r, db.State()) == UpdateOutcome(old(db.State()), old(db.nextId), claims, sid, input, lastKnown, env)
  {
    var v := ValidateUpdate(db.State(), claims, sid, input, lastKnown, env);
    if v.Err? {
      return Err(v.error);
    }
    r := ApplyUpdate(db, sid, input, v.value, env);
  }

  // ---------------------------------------------------------------------
  // Properties
  // ---------------------------------------------------------------------

  /// A caller whose token differs from the stored `updated_at` is refused
  /// with CONFLICT_STALE_WRITE once the caller, zone and series are known,
  /// and nothing changes.
  lemma StaleTokenRefused(t: Tables, base: Id, claims: Option<string>, sid: Id, input: UpdateSeriesInput,
                          lastKnown: string, env: Env)
    requires claims.Some? && claims.value in t.users && env.zones(input.timezone).Some?
    requires sid in t.series && t.series[sid].updatedAt != lastKnown
    ensures UpdateOutcome(t, base, claims, sid, input, lastKnown, env) == (Err(ConflictStaleWrite), t)
  {
  }

  /// Every error, in validation or inside the transaction, leaves the
  /// tables exactly as they were.
  lemma UpdateErrorChangesNothing(t: Tables, base: Id, claims: Option<string>, sid: Id,
                                  input: UpdateSeriesInput, lastKnown: string, env: Env)
    ensures UpdateOutcome(t, base, claims, sid, input, lastKnown, env).0.Err? ==>
              UpdateOutcome(t, base, claims, sid, input, lastKnown, env).1 == t
  {
    var v := UpdateSeriesValidation(t, claims, sid, input, lastKnown, env);
    if v.Ok? {
      var row := UpdatedRow(t.series[sid], input, env.milliStamp);
      var written := WithRewrittenSeries(t, sid, row, input.defaultTagIds);
      var tags := FinalTags(t.seriesTags, sid, input);
      if NeedsRegeneration(input) {
        var g := Regenerate(written, base, sid, row, v.value, tags, input.timezone, env);
        assert UpdateOutcome(t, base, claims, sid, input, lastKnown, env) ==
               (if g.Err? then (Err(g.error), t) else (Ok((row, tags)), g.value));
      }
    }
  }

  /// A supplied start time outside the day is always refused and changes
  /// nothing. With a start date it fails validation; without one the
  /// validation skips the time, and the regeneration rejects it with an
  /// error that carries no code.
  lemma OutOfDayTimeRefused(t: Tables, base: Id, claims: Option<string>, sid: Id,
                            input: UpdateSeriesInput, lastKnown: string, env: Env)
    requires input.dtstartTime.Some? && !(0 <= input.dtstartTime.value < 1440)
    ensures UpdateOutcome(t, base, claims, sid, input, lastKnown, env).0.Err?
    ensures UpdateOutcome(t, base, claims, sid, input, lastKnown, env).1 == t
    ensures UpdateSeriesValidation(t, claims, sid, input, lastKnown, env).Ok? ==>
              input.dtstartDate.None? &&
              UpdateOutcome(t, base, claims, sid, input, lastKnown, env).0 == Err(ParseFailed)
  {
    var v := UpdateSeriesValidation(t, claims, sid, input, lastKnown, env);
    if v.Ok? {
      var row := UpdatedRow(t.series[sid], input, env.milliStamp);
      assert row.dtstartTime == input.dtstartTime;
      assert StartMinute(row.dtstartTime).None?;
      var written := WithRewrittenSeries(t, sid, row, input.defaultTagIds);
      var tags := FinalTags(t.seriesTags, sid, input);
      assert Regenerate(written, base, sid, row, v.value, tags, input.timezone, env) == Err(ParseFailed);
    }
  }

  /// An accepted update stores the merged row: the project, creator and
  /// creation stamp never change, `updated_at` is the new stamp, a stored
  /// description, assignee or start time is never cleared, and the series'
  /// default tags are the supplied ones or else the stored ones.
  lemma AcceptedUpdateStoresMergedRow(t: Tables, base: Id, claims: Option<string>, sid: Id,
                                      input: UpdateSeriesInput, lastKnown: string, env: Env)
    requires UpdateOutcome(t, base, claims, sid, input, lastKnown, env).0.Ok?
    ensures sid in t.series
    ensures var (r, t1) := UpdateOutcome(t, base, claims, sid, input, lastKnown, env);
            var s := t.series[sid];
            sid in t1.series && t1.series[sid] == r.value.0 &&
            r.value.0.projectId == s.projectId && r.value.0.createdBy == s.createdBy &&
            r.value.0.createdAt == s.createdAt && r.value.0.updatedAt == env.milliStamp &&
            (s.description.Some? ==> r.value.0.description.Some?) &&
            (s.assigneeId.Some? ==> r.value.0.assigneeId.Some?) &&
            (s.dtstartTime.Some? ==> r.value.0.dtstartTime.Some?) &&
            SeriesTags(t1.seriesTags, sid) == r.value.1 &&
            r.value.1 == (if input.defaultTagIds.Some? then TagSet(input.defaultTagIds.value)
                          else SeriesTags(t.seriesTags, sid))
  {
    var u := UpdateSeriesValidation(t, claims, sid, input, lastKnown, env).value;
    var row := UpdatedRow(t.series[sid], input, env.milliStamp);
    var tags := FinalTags(t.seriesTags, sid, input);
    var written := WithRewrittenSeries(t, sid, row, input.defaultTagIds);
    RewrittenTags(t, sid, row, input);
    if NeedsRegeneration(input) {
      var z := env.zones(input.timezone).value;
      var g := Regenerate(written, base, sid, row, u, tags, input.timezone, env);
      RegenerateKeepsSeries(written, base, sid, row, u, tags, input.timezone, env);
      assert UpdateOutcome(t, base, claims, sid, input, lastKnown, env) == (Ok((row, tags)), g.value);
    } else if TemplateChanged(input) {
      assert UpdateOutcome(t, base, claims, sid, input, lastKnown, env) ==
             (Ok((row, tags)), Patched(written, sid, row, tags, input.defaultTagIds.Some?, env.milliStamp));
    }
  }

  /// Rewriting the series leaves its links naming exactly the final tags.
  lemma RewrittenTags(t: Tables, sid: Id, row: Series, input: UpdateSeriesInput)
    ensures SeriesTags(WithRewrittenSeries(t, sid, row, input.defaultTagIds).seriesTags, sid) ==
            FinalTags(t.seriesTags, sid, input)
  {
    if input.defaultTagIds.Some? {
      var ids := input.defaultTagIds.value;
      var links := WithRewrittenSeries(t, sid, row, input.defaultTagIds).seriesTags;
      forall g | g in TagSet(ids)
        ensures g in SeriesTags(links, sid)
      {
        assert (sid, g) in SeriesLinks(sid, ids);
        assert (sid, g) in links;
      }
    }
  }

  /// Regeneration touches only tasks and their links.
  lemma RegenerateKeepsSeries(t: Tables, base: Id, sid: Id, row: Series, u: Id, tags: set<Id>,
                              tzName: string, env: Env)
    requires env.zones(tzName).Some?
    ensures var g := Regenerate(t, base, sid, row, u, tags, tzName, env);
            g.Ok? ==> g.value.(tasks := t.tasks, taskTags := t.taskTags) == t
  {
    var z := env.zones(tzName).value;
    var pruned := Pruned(t, sid, z.localDay(env.now), z.localMinute(env.now));
    assert pruned.(tasks := t.tasks, taskTags := t.taskTags) == t;
    var g := Regenerate(t, base, sid, row, u, tags, tzName, env);
    if g.Ok? && g.value != pruned {
      var start := StartMinute(row.dtstartTime);
      var hour := if row.dtstartTime.Some? then start else None;
      var occs := env.rules.expand(row.rrule, tzName, row.dtstartDate.day, hour).value;
      var tmpl := RegenTemplate(row, sid, u);
      var slots := Seeded(occs, env.now, SeedCount);
      assert g.value == AfterRun(pruned, base, tmpl, z, slots, tags, env.secondStamp);
    }
  }

  /// Regeneration deletes exactly the upcoming `todo` tasks of the series
  /// (done, abandoned and past tasks, and other series' tasks, stay as
  /// they were) and adds at most five new `todo` tasks of the series, one
  /// per admitted occurrence, each authored by the caller.
  lemma RegenerationReplacesUpcoming(t: Tables, base: Id, sid: Id, row: Series, u: Id, tags: set<Id>,
                                     tzName: string, env: Env)
    requires env.zones(tzName).Some?
    requires forall k :: k in t.tasks ==> k < base
    requires Regenerate(t, base, sid, row, u, tags, tzName, env).Ok?
    ensures var z := env.zones(tzName).value;
            var today := z.localDay(env.now);
            var minute := z.localMinute(env.now);
            var t1 := Regenerate(t, base, sid, row, u, tags, tzName, env).value;
            (forall k :: k in t.tasks && !FromNow(t.tasks[k], sid, today, minute) ==>
               k in t1.tasks && t1.tasks[k] == t.tasks[k]) &&
            (forall k :: k in t.tasks && FromNow(t.tasks[k], sid, today, minute) ==> k !in t1.tasks) &&
            (forall k :: k in t1.tasks && k !in t.tasks ==>
               base <= k < base + SeedCount && t1.tasks[k].status == Todo &&
               t1.tasks[k].seriesId == Some(sid) && t1.tasks[k].authorId == u)
  {
    var z := env.zones(tzName).value;
    var today := z.localDay(env.now);
    var minute := z.localMinute(env.now);
    var pruned := Pruned(t, sid, today, minute);
    PrunedTasks(t, sid, today, minute);
    var t1 := Regenerate(t, base, sid, row, u, tags, tzName, env).value;
    if t1 != pruned {
      var start := StartMinute(row.dtstartTime);
      var hour := if row.dtstartTime.Some? then start else None;
      var occs := env.rules.expand(row.rrule, tzName, row.dtstartDate.day, hour).value;
      var slots := Seeded(occs, env.now, SeedCount);
      SeededBounds(occs, env.now, SeedCount);
      var tmpl := RegenTemplate(row, sid, u);
      assert t1 == AfterRun(pruned, base, tmpl, z, slots, tags, env.secondStamp);
      RunAddsTemplateRows(pruned, base, tmpl, z, slots, tags, env.secondStamp);
    }
  }

  /// The first DELETE pair removes exactly the upcoming tasks.
  lemma PrunedTasks(t: Tables, sid: Id, today: Day, minute: MinuteOfDay)
    ensures var p := Pruned(t, sid, today, minute).tasks;
            p.Keys <= t.tasks.Keys &&
            forall k :: k in t.tasks ==>
              (k in p <==> !FromNow(t.tasks[k], sid, today, minute)) && (k in p ==> p[k] == t.tasks[k])
  {
  }

  /// A run keeps the rows below `base` and adds `todo` rows of the
  /// template's series and author at ids `base` onwards.
  lemma RunAddsTemplateRows(t: Tables, base: Id, tmpl: Template, z: Zone, slots: seq<Instant>,
                            tags: set<Id>, stamp: string)
    requires forall k :: k in t.tasks ==> k < base
    ensures var t1 := AfterRun(t, base, tmpl, z, slots, tags, stamp).tasks;
            (forall k :: k in t.tasks ==> k in t1 && t1[k] == t.tasks[k]) &&
            (forall k :: k in t1 && k !in t.tasks ==>
               base <= k < base + |slots| && t1[k].status == Todo &&
               t1[k].seriesId == Some(tmpl.seriesId) && t1[k].authorId == tmpl.authorId)
  {
    AfterRunOnlyAdds(t, base, tmpl, z, slots, tags, stamp);
  }

  /// The patch keeps every task row, rewrites the `todo` tasks of the
  /// series with the new title, description, assignee and stamp, and
  /// leaves every other task as it was.
  lemma PatchTouchesOnlyTodo(t: Tables, sid: Id, row: Series, tags: set<Id>, relink: bool, stamp: string)
    ensures var t1 := Patched(t, sid, row, tags, relink, stamp);
            t1.tasks.Keys == t.tasks.Keys &&
            (forall k :: k in t.tasks ==>
               if t.tasks[k].seriesId == Some(sid) && t.tasks[k].status == Todo
               then t1.tasks[k] == t.tasks[k].(title := row.title, description := row.description,
                                               assigneeId := row.assigneeId, updatedAt := stamp)
               else t1.tasks[k] == t.tasks[k]) &&
            (relink ==> forall k, g :: k in TodoIds(t.tasks, sid) ==> ((k, g) in t1.taskTags <==> g in tags)) &&
            (forall p :: p in t.taskTags && p.0 !in TodoIds(t.tasks, sid) ==> p in t1.taskTags)
  {
  }

  // ---------------------------------------------------------------------
  // Loop lemmas
  // ---------------------------------------------------------------------

  lemma RelinkedNone(links: set<(Id, Id)>, tags: set<Id>)
    ensures Relinked(links, {}, tags) == links
  {
  }

  lemma RelinkStep(links: set<(Id, Id)>, done: set<Id>, k: Id, tags: set<Id>)
    ensures Relinked(links, done + {k}, tags) ==
            (set p | p in Relinked(links, done, tags) && p.0 != k) + (set g | g in tags :: (k, g))
  {
    var lhs := Relinked(links, done + {k}, tags);
    var rhs := (set p | p in Relinked(links, done, tags) && p.0 != k) + (set g | g in tags :: (k, g));
    forall p | p in lhs
      ensures p in rhs
    {
      if p.0 != k && p !in links {
        assert p.0 in done && p.1 in tags;
      }
    }
    forall p | p in rhs
      ensures p in lhs
    {
      if p.0 != k {
        if p in links && p.0 !in done {
          assert p.0 !in done + {k};
        } else {
          assert p.0 in done && p.1 in tags;
        }
      }
    }
  }
}
