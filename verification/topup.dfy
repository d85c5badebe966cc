// `top_up_series` (server/src/graphql/takenlijst/series_topup.rs): keep five
// future `todo` tasks for a recurring series. Existing tasks of the series
// are scanned once for the slots they occupy and for how many of them are
// pending in the future; the shortfall is filled from the series'
// occurrences, skipping taken slots.

module TopUp {
  import opened Common
  import opened Clock
  import opened Classifier
  import opened Db
  import opened Materialise

  /// How many future `todo` tasks the top-up keeps a series at.
  const Target: nat := 5

  /// Ids of the tasks that belong to series `sid`.
  function SeriesTaskIds(tasks: map<Id, Task>, sid: Id): set<Id>
  {
    set k | k in tasks && tasks[k].seriesId == Some(sid)
  }

  /// The default tags of series `sid`.
  function SeriesTags(seriesTags: set<(Id, Id)>, sid: Id): set<Id>
  {
    set p | p in seriesTags && p.0 == sid :: p.1
  }

  /// The unambiguous instant of a stored day and optional minute count,
  /// as the scan computes it; none for an invalid minute count.
  function SlotInstant(z: Zone, day: Day, time: Option<I32>): Option<Instant>
  {
    var clock := StartMinute(time);
    if clock.None? then None else SingleInstant(z.resolve(day, clock.value))
  }

  /// A task the scan counts: a `todo` with a parseable scheduled date whose
  /// slot is one unambiguous instant not before now.
  predicate IsFutureTodo(t: Task, z: Zone, now: Instant)
  {
    t.status == Todo && t.scheduledDate.Some? && t.scheduledDate.value.Iso? &&
    var at := SlotInstant(z, t.scheduledDate.value.day, t.scheduledTime);
    at.Some? && at.value >= now
  }

  /// The slots the tasks `ids` occupy, whatever their status; a stored
  /// date that does not parse still occupies its text.
  function TakenKeys(tasks: map<Id, Task>, ids: set<Id>): set<Key>
  {
    set k | k in ids && k in tasks && tasks[k].scheduledDate.Some? ::
      (tasks[k].scheduledDate.value, tasks[k].scheduledTime)
  }

  function FutureTodoIds(tasks: map<Id, Task>, ids: set<Id>, z: Zone, now: Instant): set<Id>
  {
    set k | k in ids && k in tasks && IsFutureTodo(tasks[k], z, now)
  }

  /// The minute of the series start (midnight for a date-only series).
  function StartMinute(time: Option<I32>): Option<MinuteOfDay>
  {
    if time.Some? then TimeOfDay(time.value) else Some(0)
  }

  /// What every task the top-up generates copies from the series row; the
  /// author is the series' creator.
  function TopUpTemplate(s: Series, sid: Id): Template
  {
    Template(s.projectId, s.createdBy, s.assigneeId, sid, s.title, s.description,
             s.dtstartTime, s.deadlineOffset)
  }

  /// The outcome of a top-up: an error, or the occurrences that receive a
  /// new task (none when the start cannot be placed on the clock or the
  /// series already has enough future `todo` tasks).
  function TopUpPlan(t: Tables, sid: Id, tzName: string, env: Env): (r: Result<seq<Instant>>)
    ensures env.zones(tzName).None? ==> r == Err(ValidationFailed)
    ensures env.zones(tzName).Some? && sid !in t.series ==> r == Err(NotFound)
    ensures r.Err? ==> r.error == ValidationFailed || r.error == NotFound
    ensures r.Ok? ==> env.zones(tzName).Some? && sid in t.series && t.series[sid].dtstartDate.Iso?
    ensures (env.zones(tzName).Some? && sid in t.series &&
             (t.series[sid].dtstartDate.Malformed? || StartMinute(t.series[sid].dtstartTime).None?)) ==>
              r == Err(ValidationFailed)
    ensures (env.zones(tzName).Some? && sid in t.series && t.series[sid].dtstartDate.Iso? &&
             StartMinute(t.series[sid].dtstartTime).Some? &&
             !env.zones(tzName).value.resolve(t.series[sid].dtstartDate.day,
                                              StartMinute(t.series[sid].dtstartTime).value).Single?) ==>
              r == Ok([])
  {
    match env.zones(tzName)
    case None => Err(ValidationFailed)
    case Some(z) =>
      if sid !in t.series then Err(NotFound)
      else
        var s := t.series[sid];
        var start := StartMinute(s.dtstartTime);
        if s.dtstartDate.Malformed? || start.None? then Err(ValidationFailed)
        else if !z.resolve(s.dtstartDate.day, start.value).Single? then Ok([])
        else
          var hour := if s.dtstartTime.Some? then start else None;
          Shortfall(t.tasks, sid, z, env.now, s.dtstartTime,
                    env.rules.expand(s.rrule, tzName, s.dtstartDate.day, hour))
  }

  /// The part of a top-up that looks at the series' tasks: nothing when
  /// five future `todo` tasks exist, else the occurrences that fill the
  /// shortfall (an error when the rule set does not parse).
  function Shortfall(tasks: map<Id, Task>, sid: Id, z: Zone, now: Instant, time: Option<I32>,
                     occs: Option<seq<Instant>>): Result<seq<Instant>>
  {
    var ids := SeriesTaskIds(tasks, sid);
    var count := |FutureTodoIds(tasks, ids, z, now)|;
    if count >= Target then Ok([])
    else if occs.None? then Err(ValidationFailed)
    else Ok(Filled(occs.value, now, z, time, TakenKeys(tasks, ids), Target - count))
  }

  /// The tables after a successful top-up whose new ids start at `base`.
  function TopUpAfter(t: Tables, base: Id, sid: Id, tzName: string, env: Env): Tables
    requires TopUpPlan(t, sid, tzName, env).Ok?
  {
    AfterRun(t, base, TopUpTemplate(t.series[sid], sid), env.zones(tzName).value,
             TopUpPlan(t, sid, tzName, env).value, SeriesTags(t.seriesTags, sid), env.secondStamp)
  }

  /// The resolver helper. Errors leave the store as it was.
  method TopUpSeries(db: Store, sid: Id, tzName: string, env: Env) returns (r: Result<()>)
    requires db.Valid()
    modifies db
    ensures db.Valid()
    ensures r.Err? ==> TopUpPlan(old(db.State()), sid, tzName, env) == Err(r.error) &&
                       db.State() == old(db.State())
    ensures r.Ok? ==> TopUpPlan(old(db.State()), sid, tzName, env).Ok? &&
                      db.State() == TopUpAfter(old(db.State()), old(db.nextId), sid, tzName, env)
  {
    ghost var t0 := db.State();
    var zone := env.zones(tzName);
    if zone.None? {
      return Err(ValidationFailed);
    }
    var z := zone.value;
    if sid !in db.series {
      return Err(NotFound);
    }
    var s := db.series[sid];
    if s.dtstartDate.Malformed? {
      return Err(ValidationFailed);
    }
    var minute: MinuteOfDay := 0;
    if s.dtstartTime.Some? {
      var clock := TimeOfDay(s.dtstartTime.value);
      if clock.None? {
        return Err(ValidationFailed);
      }
      minute := clock.value;
    }
    var tmpl := TopUpTemplate(s, sid);
    var tags := SeriesTags(db.seriesTags, sid);
    if !z.resolve(s.dtstartDate.day, minute).Single? {
      AfterRunEmpty(t0, db.nextId, tmpl, z, tags, env.secondStamp);
      return Ok(());
    }
    var hour := if s.dtstartTime.Some? then Some(minute) else None;
    var occs := env.rules.expand(s.rrule, tzName, s.dtstartDate.day, hour);
    r := FillShortfall(db, tmpl, z, tags, occs, env);
  }

  /// The part of the top-up past the clock checks: count, then fill.
  method FillShortfall(db: Store, tmpl: Template, z: Zone, tags: set<Id>, occs: Option<seq<Instant>>, env: Env)
    returns (r: Result<()>)
    requires db.Valid()
    modifies db
    ensures db.Valid()
    ensures r.Err? ==> Shortfall(old(db.tasks), tmpl.seriesId, z, env.now, tmpl.time, occs) == Err(r.error) &&
                       db.State() == old(db.State())
    ensures r.Ok? ==> Shortfall(old(db.tasks), tmpl.seriesId, z, env.now, tmpl.time, occs).Ok? &&
                      db.State() == AfterRun(old(db.State()), old(db.nextId), tmpl, z,
                                             Shortfall(old(db.tasks), tmpl.seriesId, z, env.now, tmpl.time, occs).value,
                                             tags, env.secondStamp)
  {
    var keys, count := ScanSeriesTasks(db.tasks, tmpl.seriesId, z, env.now);
    if count >= Target {
      AfterRunEmpty(db.State(), db.nextId, tmpl, z, tags, env.secondStamp);
      return Ok(());
    }
    if occs.None? {
      return Err(ValidationFailed);
    }
    FillTasks(db, tmpl, z, tags, occs.value, env.now, keys, Target - count, env.secondStamp);
    r := Ok(());
  }

  /// The scan over the series' existing tasks: the slots they occupy and
  /// how many of them are future `todo` tasks.
  method ScanSeriesTasks(tasks: map<Id, Task>, sid: Id, z: Zone, now: Instant) returns (keys: set<Key>, count: nat)
    ensures keys == TakenKeys(tasks, SeriesTaskIds(tasks, sid))
    ensures count == |FutureTodoIds(tasks, SeriesTaskIds(tasks, sid), z, now)|
  {
    var ids := set k | k in tasks && tasks[k].seriesId == Some(sid);
    var rest := ids;
    keys, count := {}, 0;
    while rest != {}
      invariant rest <= ids
      invariant keys == TakenKeys(tasks, ids - rest)
      invariant count == |FutureTodoIds(tasks, ids - rest, z, now)|
      decreases rest
    {
      var k :| k in rest;
      var t := tasks[k];
      ScanStep(tasks, ids, rest, k, z, now);
      if t.scheduledDate.Some? {
        keys := keys + {(t.scheduledDate.value, t.scheduledTime)};
      }
      if IsFutureTodo(t, z, now) {
        count := count + 1;
      }
      rest := rest - {k};
    }
    assert ids - rest == SeriesTaskIds(tasks, sid);
  }

  /// One task of the scan: the slot it occupies and whether it counts.
  lemma ScanStep(tasks: map<Id, Task>, ids: set<Id>, rest: set<Id>, k: Id, z: Zone, now: Instant)
    requires k in tasks && k in rest && rest <= ids
    ensures TakenKeys(tasks, ids - (rest - {k})) ==
            TakenKeys(tasks, ids - rest) +
            (if tasks[k].scheduledDate.Some? then {(tasks[k].scheduledDate.value, tasks[k].scheduledTime)} else {})
    ensures |FutureTodoIds(tasks, ids - (rest - {k}), z, now)| ==
            |FutureTodoIds(tasks, ids - rest, z, now)| + (if IsFutureTodo(tasks[k], z, now) then 1 else 0)
  {
    var done := ids - rest;
    assert ids - (rest - {k}) == done + {k};
    TakenStep(tasks, done, k);
    var before := FutureTodoIds(tasks, done, z, now);
    var after := FutureTodoIds(tasks, done + {k}, z, now);
    if IsFutureTodo(tasks[k], z, now) {
      assert after == before + {k};
      assert k !in before;
    } else {
      assert after == before;
    }
  }

  lemma TakenStep(tasks: map<Id, Task>, done: set<Id>, k: Id)
    requires k in tasks
    ensures TakenKeys(tasks, done + {k}) ==
            TakenKeys(tasks, done) +
            (if tasks[k].scheduledDate.Some? then {(tasks[k].scheduledDate.value, tasks[k].scheduledTime)} else {})
  {
    var t := tasks[k];
    if t.scheduledDate.Some? {
      assert (t.scheduledDate.value, t.scheduledTime) in TakenKeys(tasks, done + {k});
    }
  }

  // ---------------------------------------------------------------------
  // Properties
  // ---------------------------------------------------------------------

  /// A top-up never pushes the series past five future `todo` tasks, only
  /// generates tasks for occurrences not before now, and never generates a
  /// task into an occupied slot or two tasks into one slot.
  lemma TopUpPlanBounds(t: Tables, sid: Id, tzName: string, env: Env)
    requires TopUpPlan(t, sid, tzName, env).Ok?
    ensures var z := env.zones(tzName).value;
            var slots := TopUpPlan(t, sid, tzName, env).value;
            var ids := SeriesTaskIds(t.tasks, sid);
            |FutureTodoIds(t.tasks, ids, z, env.now)| + |slots| <= Target ||
            slots == []
    ensures forall o :: o in TopUpPlan(t, sid, tzName, env).value ==> o >= env.now
    ensures var z := env.zones(tzName).value;
            FreshSlots(z, TopUpPlan(t, sid, tzName, env).value, t.series[sid].dtstartTime,
                       TakenKeys(t.tasks, SeriesTaskIds(t.tasks, sid)))
  {
    var z := env.zones(tzName).value;
    var s := t.series[sid];
    var start := StartMinute(s.dtstartTime);
    var slots := TopUpPlan(t, sid, tzName, env).value;
    if slots != [] {
      var ids := SeriesTaskIds(t.tasks, sid);
      var count := |FutureTodoIds(t.tasks, ids, z, env.now)|;
      var hour := if s.dtstartTime.Some? then start else None;
      var occs := env.rules.expand(s.rrule, tzName, s.dtstartDate.day, hour).value;
      FilledBounds(occs, env.now, z, s.dtstartTime, TakenKeys(t.tasks, ids), Target - count);
      FilledSlotsFresh(occs, env.now, z, s.dtstartTime, TakenKeys(t.tasks, ids), Target - count);
    } else {
      assert FreshSlots(z, [], s.dtstartTime, TakenKeys(t.tasks, SeriesTaskIds(t.tasks, sid)));
    }
  }

  /// Every generated slot reads back as the occurrence it came from.
  ghost predicate SlotsReadBack(z: Zone, slots: seq<Instant>, time: Option<I32>)
  {
    forall o :: o in slots ==> SlotInstant(z, z.localDay(o), time) == Some(o)
  }

  /// Topping up twice in a row with nothing in between adds nothing the
  /// second time, provided each generated slot reads back as its occurrence
  /// (the zone places it on the clock unambiguously).
  lemma TopUpIdempotent(t: Tables, base: Id, sid: Id, tzName: string, env: Env)
    requires TopUpPlan(t, sid, tzName, env).Ok?
    requires forall k :: k in t.tasks ==> k < base
    requires SlotsReadBack(env.zones(tzName).value, TopUpPlan(t, sid, tzName, env).value,
                           t.series[sid].dtstartTime)
    ensures TopUpPlan(TopUpAfter(t, base, sid, tzName, env), sid, tzName, env) == Ok([])
  {
    var z := env.zones(tzName).value;
    var s := t.series[sid];
    var slots := TopUpPlan(t, sid, tzName, env).value;
    var tmpl := TopUpTemplate(s, sid);
    var tags := SeriesTags(t.seriesTags, sid);
    if slots == [] {
      AfterRunEmpty(t, base, tmpl, z, tags, env.secondStamp);
    } else {
      var start := StartMinute(s.dtstartTime);
      var hour := if s.dtstartTime.Some? then start else None;
      var occs := env.rules.expand(s.rrule, tzName, s.dtstartDate.day, hour);
      assert Shortfall(t.tasks, sid, z, env.now, s.dtstartTime, occs) == Ok(slots);
      ShortfallFilledOnce(t.tasks, base, tmpl, z, env.secondStamp, env.now, occs);
    }
  }

  /// The same for the task-facing part: after the rows of a shortfall are
  /// inserted, the shortfall is empty.
  lemma ShortfallFilledOnce(tasks: map<Id, Task>, base: Id, tmpl: Template, z: Zone, stamp: string,
                            now: Instant, occs: Option<seq<Instant>>)
    requires Shortfall(tasks, tmpl.seriesId, z, now, tmpl.time, occs).Ok?
    requires forall k :: k in tasks ==> k < base
    requires SlotsReadBack(z, Shortfall(tasks, tmpl.seriesId, z, now, tmpl.time, occs).value, tmpl.time)
    ensures var slots := Shortfall(tasks, tmpl.seriesId, z, now, tmpl.time, occs).value;
            Shortfall(tasks + NewRows(base, tmpl, z, slots, stamp), tmpl.seriesId, z, now, tmpl.time, occs) == Ok([])
  {
    var sid := tmpl.seriesId;
    var slots := Shortfall(tasks, sid, z, now, tmpl.time, occs).value;
    var ids := SeriesTaskIds(tasks, sid);
    var count := |FutureTodoIds(tasks, ids, z, now)|;
    if count < Target {
      var taken := TakenKeys(tasks, ids);
      FilledBounds(occs.value, now, z, tmpl.time, taken, Target - count);
      var tasks1 := tasks + NewRows(base, tmpl, z, slots, stamp);
      var ids1 := SeriesTaskIds(tasks1, sid);
      CountAfterRun(tasks, base, tmpl, z, slots, stamp, now);
      if count + |slots| < Target {
        FilledShortfallCoversStream(occs.value, now, z, tmpl.time, taken, Target - count);
        FilledNothingWhenCovered(occs.value, now, z, tmpl.time, TakenKeys(tasks1, ids1), Target - (count + |slots|));
      }
    } else {
      assert NewRows(base, tmpl, z, slots, stamp) == map[];
      assert tasks + map[] == tasks;
    }
  }

  /// After a run of rows for future slots, the series counts one more
  /// future `todo` task per slot and occupies the slots too.
  lemma CountAfterRun(tasks: map<Id, Task>, base: Id, tmpl: Template, z: Zone, slots: seq<Instant>,
                      stamp: string, now: Instant)
    requires forall k :: k in tasks ==> k < base
    requires SlotsReadBack(z, slots, tmpl.time)
    requires forall o :: o in slots ==> o >= now
    ensures var tasks1 := tasks + NewRows(base, tmpl, z, slots, stamp);
            var ids := SeriesTaskIds(tasks, tmpl.seriesId);
            var ids1 := SeriesTaskIds(tasks1, tmpl.seriesId);
            |FutureTodoIds(tasks1, ids1, z, now)| == |FutureTodoIds(tasks, ids, z, now)| + |slots| &&
            TakenKeys(tasks1, ids1) == TakenKeys(tasks, ids) + SlotKeys(z, slots, tmpl.time)
  {
    SeriesIdsAfterRun(tasks, base, tmpl, z, slots, stamp);
    FutureAfterRun(tasks, base, tmpl, z, slots, stamp, now);
    TakenAfterRun(tasks, base, tmpl, z, slots, stamp);
    RangeSize(base, |slots|);
    var before := FutureTodoIds(tasks, SeriesTaskIds(tasks, tmpl.seriesId), z, now);
    assert before !! IdRange(base, |slots|);
  }

  /// A run's rows sit beside the existing rows, under the ids of its range.
  lemma RunRows(tasks: map<Id, Task>, base: Id, tmpl: Template, z: Zone, slots: seq<Instant>, stamp: string)
    requires forall k :: k in tasks ==> k < base
    ensures var t1 := tasks + NewRows(base, tmpl, z, slots, stamp);
            (forall k :: k in t1 <==> k in tasks || k in IdRange(base, |slots|)) &&
            (forall k :: k in tasks ==> t1[k] == tasks[k]) &&
            (forall i :: i in IdRange(base, |slots|) ==> t1[i] == RowAt(base, tmpl, z, slots, stamp, i))
  {
  }

  lemma SeriesIdsAfterRun(tasks: map<Id, Task>, base: Id, tmpl: Template, z: Zone, slots: seq<Instant>, stamp: string)
    requires forall k :: k in tasks ==> k < base
    ensures SeriesTaskIds(tasks + NewRows(base, tmpl, z, slots, stamp), tmpl.seriesId) ==
            SeriesTaskIds(tasks, tmpl.seriesId) + IdRange(base, |slots|)
  {
    RunRows(tasks, base, tmpl, z, slots, stamp);
  }

  lemma FutureAfterRun(tasks: map<Id, Task>, base: Id, tmpl: Template, z: Zone, slots: seq<Instant>,
                       stamp: string, now: Instant)
    requires forall k :: k in tasks ==> k < base
    requires SlotsReadBack(z, slots, tmpl.time)
    requires forall o :: o in slots ==> o >= now
    ensures var t1 := tasks + NewRows(base, tmpl, z, slots, stamp);
            FutureTodoIds(t1, SeriesTaskIds(tasks, tmpl.seriesId) + IdRange(base, |slots|), z, now) ==
            FutureTodoIds(tasks, SeriesTaskIds(tasks, tmpl.seriesId), z, now) + IdRange(base, |slots|)
  {
    var t1 := tasks + NewRows(base, tmpl, z, slots, stamp);
    RunRows(tasks, base, tmpl, z, slots, stamp);
    forall i | i in IdRange(base, |slots|)
      ensures IsFutureTodo(t1[i], z, now)
    {
      assert slots[i - base] in slots;
    }
  }

  lemma TakenAfterRun(tasks: map<Id, Task>, base: Id, tmpl: Template, z: Zone, slots: seq<Instant>, stamp: string)
    requires forall k :: k in tasks ==> k < base
    ensures var t1 := tasks + NewRows(base, tmpl, z, slots, stamp);
            TakenKeys(t1, SeriesTaskIds(tasks, tmpl.seriesId) + IdRange(base, |slots|)) ==
            TakenKeys(tasks, SeriesTaskIds(tasks, tmpl.seriesId)) + SlotKeys(z, slots, tmpl.time)
  {
    var t1 := tasks + NewRows(base, tmpl, z, slots, stamp);
    var ids := SeriesTaskIds(tasks, tmpl.seriesId);
    RunRows(tasks, base, tmpl, z, slots, stamp);
    forall key | key in SlotKeys(z, slots, tmpl.time)
      ensures key in TakenKeys(t1, ids + IdRange(base, |slots|))
    {
      var j :| 0 <= j < |slots| && key == SlotKey(z, slots[j], tmpl.time);
      assert base + j in IdRange(base, |slots|);
      assert t1[base + j] == RowAt(base, tmpl, z, slots, stamp, base + j);
    }
    forall key | key in TakenKeys(t1, ids + IdRange(base, |slots|))
      ensures key in TakenKeys(tasks, ids) + SlotKeys(z, slots, tmpl.time)
    {
      var k :| k in ids + IdRange(base, |slots|) && k in t1 && t1[k].scheduledDate.Some? &&
               key == (t1[k].scheduledDate.value, t1[k].scheduledTime);
      if k in IdRange(base, |slots|) {
        assert slots[k - base] in slots;
      }
    }
  }

  /// The ids `base .. base + n - 1`.
  function IdRange(base: Id, n: nat): (r: set<Id>)
    ensures forall i :: i in r <==> base <= i < base + n
  {
    if n == 0 then {} else IdRange(base, n - 1) + {base + n - 1}
  }

  /// `base .. base + n - 1` holds `n` ids.
  lemma {:induction false} RangeSize(base: Id, n: nat)
    ensures |IdRange(base, n)| == n
  {
    if n > 0 {
      RangeSize(base, n - 1);
      assert base + n - 1 !in IdRange(base, n - 1);
    }
  }
}
