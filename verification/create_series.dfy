// `createRecurringSeries`
// (server/src/graphql/takenlijst/create_recurring_series.rs): validate the
// input, store the series with its RRULE normalised and its default tags,
// then seed up to five tasks from the first occurrences not before now.
// The writes are not wrapped in a transaction: a rule set that fails to
// parse once combined with its DTSTART is reported after the series and
// its tag links were stored.

module CreateSeries {
  import opened Common
  import opened Clock
  import opened Db
  import opened Guard
  import opened RuleText
  import opened Materialise

  /// The `CreateSeriesInput` object; the start date is the text as sent.
  datatype CreateSeriesInput = CreateSeriesInput(
    projectId: Id,
    title: string,
    description: Option<string>,
    assigneeId: Option<Id>,
    rrule: string,
    dtstartDate: DateText,
    dtstartTime: Option<I32>,
    deadlineOffset: I32,
    defaultTagIds: Option<seq<Id>>,
    timezone: string)

  /// The largest deadline offset accepted, a year of minutes.
  const MaxDeadlineOffset := 525600

  /// How many tasks creation and regeneration seed.
  const SeedCount: nat := 5

  /// Every listed tag id names a tag row.
  predicate AllTagsExist(tags: map<Id, Tag>, ids: seq<Id>)
  {
    forall i :: 0 <= i < |ids| ==> ids[i] in tags
  }

  /// The per-tag `SELECT COUNT(*) FROM tags WHERE id = ?` loop.
  method CheckTagsExist(tags: map<Id, Tag>, ids: seq<Id>) returns (ok: bool)
    ensures ok <==> AllTagsExist(tags, ids)
  {
    var i := 0;
    while i < |ids|
      invariant 0 <= i <= |ids|
      invariant AllTagsExist(tags, ids[..i])
    {
      if ids[i] !in tags {
        return false;
      }
      i := i + 1;
    }
    assert ids[..i] == ids;
    return true;
  }

  /// The first-occurrence check for a timed start on today's date: the
  /// local date-time must be one unambiguous instant, not before now.
  predicate StartsNotBeforeNow(z: Zone, now: Instant, day: Day, minute: MinuteOfDay)
  {
    var at := SingleInstant(z.resolve(day, minute));
    at.Some? && at.value >= now
  }

  /// The input checks refused with VALIDATION_FAILED, in the resolver's
  /// order: the deadline offset within a year of minutes, a rule that
  /// parses, a well-formed start date, a known zone, a start date not
  /// before today there, and a start time within the day that, on today's
  /// date, is one instant not before now.
  predicate ScheduleValid(input: CreateSeriesInput, env: Env)
  {
    0 <= input.deadlineOffset <= MaxDeadlineOffset &&
    env.rules.parses(input.rrule) &&
    input.dtstartDate.Iso? &&
    env.zones(input.timezone).Some? &&
    var z := env.zones(input.timezone).value;
    input.dtstartDate.day >= z.localDay(env.now) &&
    (input.dtstartTime.Some? ==>
       0 <= input.dtstartTime.value < 1440 &&
       (input.dtstartDate.day == z.localDay(env.now) ==>
          StartsNotBeforeNow(z, env.now, input.dtstartDate.day, input.dtstartTime.value)))
  }

  /// The references refused with NOT_FOUND: an assignee user row and a
  /// tag row for every default tag.
  predicate ReferencesExist(t: Tables, assignee: Option<Id>, tagIds: seq<Id>)
  {
    (assignee.Some? ==> UserExists(t.users, assignee.value)) && AllTagsExist(t.tags, tagIds)
  }

  /// The validation phase, in the resolver's order; the result is the
  /// caller's user id.
  function CreateSeriesValidation(t: Tables, claims: Option<string>, input: CreateSeriesInput, env: Env)
    : (r: Result<Id>)
    ensures r.Ok? ==> claims.Some? && claims.value in t.users && r.value == t.users[claims.value]
    ensures r.Ok? ==> 0 <= input.deadlineOffset <= MaxDeadlineOffset && env.rules.parses(input.rrule)
    ensures r.Ok? ==> input.dtstartDate.Iso? && env.zones(input.timezone).Some? &&
                      input.dtstartDate.day >= env.zones(input.timezone).value.localDay(env.now)
    ensures r.Ok? && input.dtstartTime.Some? ==>
              0 <= input.dtstartTime.value < 1440 &&
              (input.dtstartDate.day == env.zones(input.timezone).value.localDay(env.now) ==>
                 StartsNotBeforeNow(env.zones(input.timezone).value, env.now,
                                    input.dtstartDate.day, input.dtstartTime.value))
    ensures r.Ok? ==> IsMember(t.projects, t.members, r.value, input.projectId)
    ensures r.Ok? ==> (input.assigneeId.Some? ==> UserExists(t.users, input.assigneeId.value)) &&
                      AllTagsExist(t.tags, input.defaultTagIds.UnwrapOr([]))
    ensures r.Err? && claims.Some? && claims.value in t.users ==>
              r.error in {ValidationFailed, PermissionDenied, NotFound}
    ensures claims.None? ==> r == Err(AuthenticationRequired)
    ensures claims.Some? && claims.value !in t.users ==> r == Err(QueryFailed)
    ensures KnownCaller(t, claims) && !ScheduleValid(input, env) ==> r == Err(ValidationFailed)
    ensures (KnownCaller(t, claims) && ScheduleValid(input, env) &&
             !IsMember(t.projects, t.members, t.users[claims.value], input.projectId)) ==>
              r == Err(PermissionDenied)
    ensures (KnownCaller(t, claims) && ScheduleValid(input, env) &&
             IsMember(t.projects, t.members, t.users[claims.value], input.projectId) &&
             !ReferencesExist(t, input.assigneeId, input.defaultTagIds.UnwrapOr([]))) ==>
              r == Err(NotFound)
    ensures r.Ok? <==> KnownCaller(t, claims) && ScheduleValid(input, env) &&
                       IsMember(t.projects, t.members, t.users[claims.value], input.projectId) &&
                       ReferencesExist(t, input.assigneeId, input.defaultTagIds.UnwrapOr([]))
  {
    match CallerId(t.users, claims)
    case Err(e) => Err(e)
    case Ok(u) =>
      if input.deadlineOffset < 0 || input.deadlineOffset > MaxDeadlineOffset then Err(ValidationFailed)
      else if !env.rules.parses(input.rrule) then Err(ValidationFailed)
      else if input.dtstartDate.Malformed? then Err(ValidationFailed)
      else if env.zones(input.timezone).None? then Err(ValidationFailed)
      else
        var z := env.zones(input.timezone).value;
        var today := z.localDay(env.now);
        var day := input.dtstartDate.day;
        if day < today then Err(ValidationFailed)
        else if input.dtstartTime.Some? && !(0 <= input.dtstartTime.value < 1440) then Err(ValidationFailed)
        else if input.dtstartTime.Some? && day == today &&
                !StartsNotBeforeNow(z, env.now, day, input.dtstartTime.value) then Err(ValidationFailed)
        else if RequireMember(t.projects, t.members, u, input.projectId).Err? then Err(PermissionDenied)
        else if input.assigneeId.Some? && !UserExists(t.users, input.assigneeId.value) then Err(NotFound)
        else if !AllTagsExist(t.tags, input.defaultTagIds.UnwrapOr([])) then Err(NotFound)
        else Ok(u)
  }

  /// The stored series row: created by the caller, RRULE normalised.
  function NewSeriesRow(input: CreateSeriesInput, u: Id, stamp: string): (s: Series)
    ensures s.createdBy == u && s.rrule == NormalizeRule(input.rrule, input.dtstartTime.Some?)
    ensures input.dtstartTime.Some? ==> s.rrule == input.rrule
  {
    Series(input.projectId, u, input.title, input.description, input.assigneeId,
           NormalizeRule(input.rrule, input.dtstartTime.Some?),
           input.dtstartDate, input.dtstartTime, input.deadlineOffset, stamp, stamp)
  }

  function SeriesLinks(sid: Id, ids: seq<Id>): set<(Id, Id)>
  {
    set g | g in ids :: (sid, g)
  }

  /// What seeded tasks copy: the caller is their author.
  function CreationTemplate(input: CreateSeriesInput, u: Id, sid: Id): Template
  {
    Template(input.projectId, u, input.assigneeId, sid, input.title, input.description,
             input.dtstartTime, input.deadlineOffset)
  }

  /// The seeding phase: no tasks when the start is not one unambiguous
  /// instant, an error when the rule set does not parse, else the first
  /// five occurrences not before now.
  function CreationSeed(input: CreateSeriesInput, env: Env): (r: Result<seq<Instant>>)
    requires input.dtstartDate.Iso? && env.zones(input.timezone).Some?
    requires input.dtstartTime.Some? ==> 0 <= input.dtstartTime.value < 1440
    ensures r.Ok? ==> |r.value| <= SeedCount && forall o :: o in r.value ==> o >= env.now
    ensures r.Err? ==> r.error == ValidationFailed
    ensures var minute: MinuteOfDay := if input.dtstartTime.Some? then input.dtstartTime.value else 0;
            var z := env.zones(input.timezone).value;
            !z.resolve(input.dtstartDate.day, minute).Single? ==> r == Ok([])
    ensures var minute: MinuteOfDay := if input.dtstartTime.Some? then input.dtstartTime.value else 0;
            var z := env.zones(input.timezone).value;
            var hour := if input.dtstartTime.Some? then Some(minute) else None;
            var rule := NormalizeRule(input.rrule, input.dtstartTime.Some?);
            z.resolve(input.dtstartDate.day, minute).Single? ==>
              (r.Err? <==> env.rules.expand(rule, input.timezone, input.dtstartDate.day, hour).None?)
  {
    var z := env.zones(input.timezone).value;
    var minute: MinuteOfDay := if input.dtstartTime.Some? then input.dtstartTime.value else 0;
    if !z.resolve(input.dtstartDate.day, minute).Single? then Ok([])
    else
      var hour := if input.dtstartTime.Some? then Some(minute) else None;
      var rule := NormalizeRule(input.rrule, input.dtstartTime.Some?);
      match env.rules.expand(rule, input.timezone, input.dtstartDate.day, hour)
      case None => Err(ValidationFailed)
      case Some(occs) =>
        SeededBounds(occs, env.now, SeedCount);
        Ok(Seeded(occs, env.now, SeedCount))
  }

  /// The tables once the series row and its tag links are stored.
  function WithSeries(t: Tables, sid: Id, row: Series, tagIds: seq<Id>): Tables
  {
    t.(series := t.series[sid := row], seriesTags := t.seriesTags + SeriesLinks(sid, tagIds))
  }

  /// What the resolver leaves past validation, when the next fresh id is
  /// `base`: the series and its links are stored whatever the seeding
  /// phase returns.
  function StoreAndSeed(t: Tables, base: Id, input: CreateSeriesInput, u: Id, env: Env)
    : (Result<(Id, Series, seq<Id>)>, Tables)
    requires input.dtstartDate.Iso? && env.zones(input.timezone).Some?
    requires input.dtstartTime.Some? ==> 0 <= input.dtstartTime.value < 1440
  {
    var row := NewSeriesRow(input, u, env.secondStamp);
    var tagIds := input.defaultTagIds.UnwrapOr([]);
    var stored := WithSeries(t, base, row, tagIds);
    match CreationSeed(input, env)
    case Err(e) => (Err(e), stored)
    case Ok(slots) =>
      (Ok((base, row, tagIds)),
       AfterRun(stored, base + 1, CreationTemplate(input, u, base), env.zones(input.timezone).value,
                slots, TagSet(tagIds), env.secondStamp))
  }

  /// What the resolver returns and leaves in the tables: a validation
  /// error changes nothing.
  function CreationOutcome(t: Tables, base: Id, claims: Option<string>, input: CreateSeriesInput, env: Env)
    : (o: (Result<(Id, Series, seq<Id>)>, Tables))
    ensures CreateSeriesValidation(t, claims, input, env).Err? ==> o.1 == t && o.0.Err?
    ensures CreateSeriesValidation(t, claims, input, env).Ok? ==> base in o.1.series
  {
    match CreateSeriesValidation(t, claims, input, env)
    case Err(e) => (Err(e), t)
    case Ok(u) => StoreAndSeed(t, base, input, u, env)
  }

  /// The series INSERT and the INSERTs of its tag links.
  method InsertSeries(db: Store, row: Series, tagIds: seq<Id>) returns (sid: Id)
    requires db.Valid()
    modifies db
    ensures db.Valid()
    ensures sid == old(db.nextId) && db.nextId == sid + 1 && sid !in old(db.series)
    ensures db.State() == WithSeries(old(db.State()), sid, row, tagIds)
  {
    sid := db.FreshId();
    db.series := db.series[sid := row];
    db.seriesTags := db.seriesTags + SeriesLinks(sid, tagIds);
  }

  /// The statement form of `CreateSeriesValidation`, proved equal to it: the resolver runs
  /// these statements, and proving them here on their own keeps the
  /// resolver's proof small.
  method ValidateCreation(t: Tables, claims: Option<string>, input: CreateSeriesInput, env: Env)
    returns (v: Result<Id>)
    ensures v == CreateSeriesValidation(t, claims, input, env)
  {
    var caller := CallerId(t.users, claims);
    if caller.Err? {
      return Err(caller.error);
    }
    var u := caller.value;
    if input.deadlineOffset < 0 || input.deadlineOffset > MaxDeadlineOffset {
      return Err(ValidationFailed);
    }
    if !env.rules.parses(input.rrule) {
      return Err(ValidationFailed);
    }
    if input.dtstartDate.Malformed? {
      return Err(ValidationFailed);
    }
    var zone := env.zones(input.timezone);
    if zone.None? {
      return Err(ValidationFailed);
    }
    var z := zone.value;
    var today := z.localDay(env.now);
    var day := input.dtstartDate.day;
    if day < today {
      return Err(ValidationFailed);
    }
    if input.dtstartTime.Some? {
      var m := input.dtstartTime.value;
      if m < 0 || m >= 1440 {
        return Err(ValidationFailed);
      }
      if day == today && !StartsNotBeforeNow(z, env.now, day, m) {
        return Err(ValidationFailed);
      }
    }
    if RequireMember(t.projects, t.members, u, input.projectId).Err? {
      return Err(PermissionDenied);
    }
    if input.assigneeId.Some? && !UserExists(t.users, input.assigneeId.value) {
      return Err(NotFound);
    }
    var tagsOk := CheckTagsExist(t.tags, input.defaultTagIds.UnwrapOr([]));
    if !tagsOk {
      return Err(NotFound);
    }
    return Ok(u);
  }

  /// The seeding phase of the resolver, run once the series is stored as
  /// `sid`: an error leaves the tables as they were, else the seeded slots
  /// are inserted as tasks.
  method SeedCreatedSeries(db: Store, input: CreateSeriesInput, u: Id, sid: Id, env: Env) returns (r: Result<()>)
    requires db.Valid()
    requires input.dtstartDate.Iso? && env.zones(input.timezone).Some?
    requires input.dtstartTime.Some? ==> 0 <= input.dtstartTime.value < 1440
    modifies db
    ensures db.Valid()
    ensures r.Err? ==> CreationSeed(input, env) == Err(r.error) && db.State() == old(db.State())
    ensures r.Ok? ==> CreationSeed(input, env).Ok?
    ensures r.Ok? ==> db.State() == AfterRun(old(db.State()), old(db.nextId), CreationTemplate(input, u, sid),
                                               env.zones(input.timezone).value, CreationSeed(input, env).value,
                                               TagSet(input.defaultTagIds.UnwrapOr([])), env.secondStamp)
  {
    var z := env.zones(input.timezone).value;
    var day := input.dtstartDate.day;
    var tmpl := CreationTemplate(input, u, sid);
    var tagSet := TagSet(input.defaultTagIds.UnwrapOr([]));
    var seed := CreationSeed(input, env);
    if seed.Err? {
      return Err(seed.error);
    }
    var minute: MinuteOfDay := if input.dtstartTime.Some? then input.dtstartTime.value else 0;
    if z.resolve(day, minute).Single? {
      var hour := if input.dtstartTime.Some? then Some(minute) else None;
      var rule := NormalizeRule(input.rrule, input.dtstartTime.Some?);
      var occs := env.rules.expand(rule, input.timezone, day, hour);
      assert seed.value == Seeded(occs.value, env.now, SeedCount);
      SeedTasks(db, tmpl, z, tagSet, occs.value, env.now, SeedCount, env.secondStamp);
    } else {
      assert seed.value == [];
      AfterRunEmpty(db.State(), db.nextId, tmpl, z, tagSet, env.secondStamp);
    }
    r := Ok(());
  }

  /// The statements of the resolver past validation.
  method StoreSeries(db: Store, input: CreateSeriesInput, u: Id, env: Env)
    returns (r: Result<(Id, Series, seq<Id>)>)
    requires db.Valid()
    requires input.dtstartDate.Iso? && env.zones(input.timezone).Some?
    requires input.dtstartTime.Some? ==> 0 <= input.dtstartTime.value < 1440
    modifies db
    ensures db.Valid()
    ensures (r, db.State()) == StoreAndSeed(old(db.State()), old(db.nextId), input, u, env)
  {
    var tagIds := input.defaultTagIds.UnwrapOr([]);
    var row := NewSeriesRow(input, u, env.secondStamp);
    var sid := InsertSeries(db, row, tagIds);
    var seeded := SeedCreatedSeries(db, input, u, sid, env);
    if seeded.Err? {
      return Err(seeded.error);
    }
    r := Ok((sid, row, tagIds));
  }

  /// The resolver.
  method CreateRecurringSeries(db: Store, claims: Option<string>, input: CreateSeriesInput, env: Env)
    returns (r: Result<(Id, Series, seq<Id>)>)
    requires db.Valid()
    modifies db
    ensures db.Valid()
    ensures (r, db.State()) == CreationOutcome(old(db.State()), old(db.nextId), claims, input, env)
  {
    var v := ValidateCreation(db.State(), claims, input, env);
    if v.Err? {
      return Err(v.error);
    }
    r := StoreSeries(db, input, v.value, env);
  }

  // ---------------------------------------------------------------------
  // Properties
  // ---------------------------------------------------------------------

  /// The tasks seeded at creation are exactly the first five occurrences
  /// (of the normalised rule) not before now.
  lemma CreationSeedsFirstFuture(input: CreateSeriesInput, env: Env, occs: seq<Instant>)
    requires input.dtstartDate.Iso? && env.zones(input.timezone).Some?
    requires input.dtstartTime.Some? ==> 0 <= input.dtstartTime.value < 1440
    requires var minute: MinuteOfDay := if input.dtstartTime.Some? then input.dtstartTime.value else 0;
             env.zones(input.timezone).value.resolve(input.dtstartDate.day, minute).Single? &&
             env.rules.expand(NormalizeRule(input.rrule, input.dtstartTime.Some?), input.timezone,
                              input.dtstartDate.day, if input.dtstartTime.Some? then Some(minute) else None)
               == Some(occs)
    ensures CreationSeed(input, env) == Ok(Take(Future(occs, env.now), SeedCount))
  {
    SeededIsFirstFuture(occs, env.now, SeedCount);
  }

  /// A start date before today is refused, whatever else the input says,
  /// once the caller, offset, rule and zone are acceptable.
  lemma PastStartRefused(t: Tables, claims: Option<string>, input: CreateSeriesInput, env: Env)
    requires claims.Some? && claims.value in t.users
    requires input.dtstartDate.Iso? && env.zones(input.timezone).Some?
    requires input.dtstartDate.day < env.zones(input.timezone).value.localDay(env.now)
    ensures CreateSeriesValidation(t, claims, input, env) == Err(ValidationFailed)
  {
  }

  /// Creation touches only the series, series-tag, task and task-tag
  /// tables, and leaves every existing task row as it was.
  lemma CreationOnlyAdds(t: Tables, base: Id, claims: Option<string>, input: CreateSeriesInput, env: Env)
    requires forall k :: k in t.tasks ==> k < base + 1
    ensures var t1 := CreationOutcome(t, base, claims, input, env).1;
            t1.users == t.users && t1.projects == t.projects && t1.members == t.members &&
            t1.tags == t.tags && t1.savedViews == t.savedViews &&
            t1.defaultView == t.defaultView && t1.refreshTokens == t.refreshTokens &&
            (forall k :: k in t.tasks ==> k in t1.tasks && t1.tasks[k] == t.tasks[k]) &&
            t.taskTags <= t1.taskTags && t.seriesTags <= t1.seriesTags
  {
    var v := CreateSeriesValidation(t, claims, input, env);
    if v.Ok? {
      var row := NewSeriesRow(input, v.value, env.secondStamp);
      var tagIds := input.defaultTagIds.UnwrapOr([]);
      var stored := WithSeries(t, base, row, tagIds);
      var seed := CreationSeed(input, env);
      if seed.Ok? {
        AfterRunOnlyAdds(stored, base + 1, CreationTemplate(input, v.value, base),
                         env.zones(input.timezone).value, seed.value, TagSet(tagIds), env.secondStamp);
      }
    }
  }
}
