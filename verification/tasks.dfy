// Creating and abandoning a task
// (server/src/graphql/takenlijst/mutations/create_task.rs and
// server/src/graphql/takenlijst/abandon_task.rs). Both answer with the task
// row as stored plus its overdue flag and bucket, judged in the caller's
// time zone at the current instant.

module Tasks {
  import opened Common
  import opened Text
  import opened Clock
  import opened Classifier
  import opened Db
  import opened Guard
  import opened TopUp

  /// `CreateTaskInput`.
  datatype CreateTaskInput = CreateTaskInput(
    projectId: Id,
    title: string,
    description: Option<string>,
    assigneeId: Option<Id>,
    scheduledDate: Option<DateText>,
    scheduledTime: Option<I32>,
    deadlineDate: Option<DateText>,
    deadlineTime: Option<I32>,
    tagIds: Option<seq<Id>>)

  /// The GraphQL `Task`: the stored row, its id, and the two judgements of
  /// the classifier.
  datatype TaskView = TaskView(id: Id, row: Task, isOverdue: bool, bucket: TaskBucket)

  const MaxTitleBytes := 120
  const MaxDescriptionBytes := 5000

  /// The answer for a stored row.
  function ViewOf(id: Id, row: Task, z: Zone, now: Instant): TaskView
  {
    TaskView(id, row,
             IsTaskOverdue(z, now, row.scheduledDate, row.scheduledTime, row.deadlineDate, row.deadlineTime),
             GetTaskBucket(z, now, row.scheduledDate, row.scheduledTime, row.deadlineDate, row.deadlineTime))
  }

  /// A minute count within one day.
  predicate InDay(m: I32)
  {
    0 <= m <= 1439
  }

  /// Rows of `SELECT COUNT(*) FROM tags WHERE id IN (...)`: the tag rows
  /// whose id the list names, each counted once.
  function MatchingTagCount(tags: map<Id, Tag>, ids: seq<Id>): nat
  {
    |TagSet(ids) * tags.Keys|
  }

  /// No id occurs twice in the list.
  predicate Distinct(ids: seq<Id>)
  {
    forall i, j :: 0 <= i < j < |ids| ==> ids[i] != ids[j]
  }

  /// The caller is signed in, names a known time zone and has a user row.
  predicate SignedIn(t: Tables, claims: Option<string>, tzName: string, env: Env)
  {
    claims.Some? && env.zones(tzName).Some? && claims.value in t.users
  }

  /// `u` may change the tasks of project `p`: a member of a project that
  /// exists and is not archived.
  predicate TasksWritable(t: Tables, u: Id, p: Id)
  {
    IsMember(t.projects, t.members, u, p) && p in t.projects && t.projects[p].archivedAt.None?
  }

  /// The field checks of `create_task`: a trimmed title of 1 to 120 bytes,
  /// a description of at most 5000 bytes, a time only with its date and
  /// within one day, well-formed dates, and an assignee who is a member.
  predicate FieldsValid(t: Tables, input: CreateTaskInput)
  {
    var title := Trim(input.title, RustSpace);
    0 < |title| && Utf8Length(title) <= MaxTitleBytes &&
    (input.description.Some? ==> Utf8Length(input.description.value) <= MaxDescriptionBytes) &&
    (input.scheduledTime.Some? ==> input.scheduledDate.Some? && InDay(input.scheduledTime.value)) &&
    (input.deadlineTime.Some? ==> input.deadlineDate.Some? && InDay(input.deadlineTime.value)) &&
    (input.scheduledDate.Some? ==> input.scheduledDate.value.Iso?) &&
    (input.deadlineDate.Some? ==> input.deadlineDate.value.Iso?) &&
    (input.assigneeId.Some? ==> IsMember(t.projects, t.members, input.assigneeId.value, input.projectId))
  }

  /// The tag ids pass: none given, or distinct ids of existing tags.
  predicate TagsNamed(tags: map<Id, Tag>, ids: Option<seq<Id>>)
  {
    ids.None? || (Distinct(ids.value) && forall i :: 0 <= i < |ids.value| ==> ids.value[i] in tags)
  }

  /// The validation phase of `create_task`, in its order; the result is
  /// the caller's user id.
  function CreateTaskValidation(t: Tables, claims: Option<string>, input: CreateTaskInput,
                                tzName: string, env: Env): (r: Result<Id>)
    ensures claims.None? ==> r == Err(AuthenticationRequired)
    ensures claims.Some? && env.zones(tzName).None? ==> r == Err(InvalidTimezone)
    ensures claims.Some? && env.zones(tzName).Some? && claims.value !in t.users ==> r == Err(QueryFailed)
    ensures SignedIn(t, claims, tzName, env) && !TasksWritable(t, t.users[claims.value], input.projectId) ==>
              r == Err(PermissionDenied)
    ensures (SignedIn(t, claims, tzName, env) && TasksWritable(t, t.users[claims.value], input.projectId) &&
             !FieldsValid(t, input)) ==> r == Err(ValidationFailed)
    ensures (SignedIn(t, claims, tzName, env) && TasksWritable(t, t.users[claims.value], input.projectId) &&
             FieldsValid(t, input) && !TagsNamed(t.tags, input.tagIds)) ==> r == Err(NotFound)
    ensures r.Ok? <==> SignedIn(t, claims, tzName, env) && TasksWritable(t, t.users[claims.value], input.projectId) &&
                       FieldsValid(t, input) && TagsNamed(t.tags, input.tagIds)
    ensures r.Ok? ==> claims.Some? && claims.value in t.users && r.value == t.users[claims.value] &&
                      env.zones(tzName).Some?
    ensures r.Ok? ==> IsMember(t.projects, t.members, r.value, input.projectId) &&
                      input.projectId in t.projects && t.projects[input.projectId].archivedAt.None?
    ensures r.Ok? ==> var title := Trim(input.title, RustSpace);
                      0 < |title| && Utf8Length(title) <= MaxTitleBytes
    ensures r.Ok? && input.description.Some? ==> Utf8Length(input.description.value) <= MaxDescriptionBytes
    ensures r.Ok? && input.scheduledTime.Some? ==> input.scheduledDate.Some? && InDay(input.scheduledTime.value)
    ensures r.Ok? && input.deadlineTime.Some? ==> input.deadlineDate.Some? && InDay(input.deadlineTime.value)
    ensures r.Ok? && input.scheduledDate.Some? ==> input.scheduledDate.value.Iso?
    ensures r.Ok? && input.deadlineDate.Some? ==> input.deadlineDate.value.Iso?
    ensures r.Ok? && input.assigneeId.Some? ==> IsMember(t.projects, t.members, input.assigneeId.value, input.projectId)
  {
    TagCountAcceptsExactly(t.tags, input.tagIds.UnwrapOr([]));
    if claims.None? then Err(AuthenticationRequired)
    else if env.zones(tzName).None? then Err(InvalidTimezone)
    else
      match CallerId(t.users, claims)
      case Err(e) => Err(e)
      case Ok(u) =>
        var title := Trim(input.title, RustSpace);
        if RequireMember(t.projects, t.members, u, input.projectId).Err? then Err(PermissionDenied)
        else if t.projects[input.projectId].archivedAt.Some? then Err(PermissionDenied)
        else if |title| == 0 || Utf8Length(title) > MaxTitleBytes then Err(ValidationFailed)
        else if input.description.Some? && Utf8Length(input.description.value) > MaxDescriptionBytes then
          Err(ValidationFailed)
        else if input.scheduledTime.Some? && input.scheduledDate.None? then Err(ValidationFailed)
        else if input.deadlineTime.Some? && input.deadlineDate.None? then Err(ValidationFailed)
        else if input.scheduledTime.Some? && !InDay(input.scheduledTime.value) then Err(ValidationFailed)
        else if input.deadlineTime.Some? && !InDay(input.deadlineTime.value) then Err(ValidationFailed)
        else if input.scheduledDate.Some? && input.scheduledDate.value.Malformed? then Err(ValidationFailed)
        else if input.deadlineDate.Some? && input.deadlineDate.value.Malformed? then Err(ValidationFailed)
        else if input.assigneeId.Some? && !IsMember(t.projects, t.members, input.assigneeId.value, input.projectId) then
          Err(ValidationFailed)
        else if input.tagIds.Some? && |input.tagIds.value| > 0 &&
                MatchingTagCount(t.tags, input.tagIds.value) != |input.tagIds.value| then Err(NotFound)
        else Ok(u)
  }

  /// The inserted row: a `todo` task authored by the caller, with the
  /// trimmed title and the input's fields as given.
  function NewTaskRow(input: CreateTaskInput, u: Id, stamp: string): Task
  {
    Task(input.projectId, u, input.assigneeId, None, Trim(input.title, RustSpace), input.description, Todo,
         input.scheduledDate, input.scheduledTime, input.deadlineDate, input.deadlineTime,
         None, None, None, None, stamp, stamp)
  }

  /// What `create_task` returns and leaves in the tables when the next
  /// fresh id is `base`.
  function CreateTaskOutcome(t: Tables, base: Id, claims: Option<string>, input: CreateTaskInput,
                             tzName: string, env: Env): (o: (Result<TaskView>, Tables))
    ensures o.0.Err? ==> o.1 == t
    ensures o.1.(tasks := t.tasks, taskTags := t.taskTags) == t
    ensures o.0.Ok? ==> o.0.value.id == base && o.1.tasks == t.tasks[base := o.0.value.row] &&
                        o.0.value.row.status == Todo && t.taskTags <= o.1.taskTags
  {
    match CreateTaskValidation(t, claims, input, tzName, env)
    case Err(e) => (Err(e), t)
    case Ok(u) =>
      var row := NewTaskRow(input, u, env.secondStamp);
      (Ok(ViewOf(base, row, env.zones(tzName).value, env.now)),
       t.(tasks := t.tasks[base := row],
          taskTags := t.taskTags + (set g | g in TagSet(input.tagIds.UnwrapOr([])) :: (base, g))))
  }

  /// The statement form of `CreateTaskValidation`, proved equal to it: the resolver runs
  /// these statements, and proving them here on their own keeps the
  /// resolver's proof small.
  method ValidateNewTask(t: Tables, claims: Option<string>, input: CreateTaskInput, tzName: string, env: Env)
    returns (v: Result<Id>)
    ensures v == CreateTaskValidation(t, claims, input, tzName, env)
  {
    if claims.None? {
      return Err(AuthenticationRequired);
    }
    if env.zones(tzName).None? {
      return Err(InvalidTimezone);
    }
    var caller := CallerId(t.users, claims);
    if caller.Err? {
      return Err(caller.error);
    }
    var u := caller.value;
    if RequireMember(t.projects, t.members, u, input.projectId).Err? {
      return Err(PermissionDenied);
    }
    if t.projects[input.projectId].archivedAt.Some? {
      return Err(PermissionDenied);
    }
    var title := Trim(input.title, RustSpace);
    if |title| == 0 || Utf8Length(title) > MaxTitleBytes {
      return Err(ValidationFailed);
    }
    if input.description.Some? && Utf8Length(input.description.value) > MaxDescriptionBytes {
      return Err(ValidationFailed);
    }
    if input.scheduledTime.Some? && input.scheduledDate.None? {
      return Err(ValidationFailed);
    }
    if input.deadlineTime.Some? && input.deadlineDate.None? {
      return Err(ValidationFailed);
    }
    if input.scheduledTime.Some? && !InDay(input.scheduledTime.value) {
      return Err(ValidationFailed);
    }
    if input.deadlineTime.Some? && !InDay(input.deadlineTime.value) {
      return Err(ValidationFailed);
    }
    if input.scheduledDate.Some? && input.scheduledDate.value.Malformed? {
      return Err(ValidationFailed);
    }
    if input.deadlineDate.Some? && input.deadlineDate.value.Malformed? {
      return Err(ValidationFailed);
    }
    if input.assigneeId.Some? && !IsMember(t.projects, t.members, input.assigneeId.value, input.projectId) {
      return Err(ValidationFailed);
    }
    if input.tagIds.Some? && |input.tagIds.value| > 0 &&
       MatchingTagCount(t.tags, input.tagIds.value) != |input.tagIds.value| {
      return Err(NotFound);
    }
    return Ok(u);
  }

  /// `create_task`.
  method CreateTask(db: Store, claims: Option<string>, input: CreateTaskInput, tzName: string, env: Env)
    returns (r: Result<TaskView>)
    requires db.Valid()
    modifies db
    ensures db.Valid()
    ensures (r, db.State()) == CreateTaskOutcome(old(db.State()), old(db.nextId), claims, input, tzName, env)
  {
    var v := ValidateNewTask(db.State(), claims, input, tzName, env);
    if v.Err? {
      return Err(v.error);
    }
    var row := NewTaskRow(input, v.value, env.secondStamp);
    var id := Materialise.InsertTask(db, row, TagSet(input.tagIds.UnwrapOr([])));
    r := Ok(ViewOf(id, row, env.zones(tzName).value, env.now));
  }

  // ---------------------------------------------------------------------
  // abandon_task
  // ---------------------------------------------------------------------

  /// The checks of `abandon_task`, in its order; the result is the
  /// caller's user id.
  function AbandonValidation(t: Tables, claims: Option<string>, id: Id, lastKnown: string,
                             tzName: string, env: Env): (r: Result<Id>)
    ensures r.Ok? ==> claims.Some? && claims.value in t.users && r.value == t.users[claims.value] &&
                      env.zones(tzName).Some? && id in t.tasks
    ensures r.Ok? ==> IsMember(t.projects, t.members, r.value, t.tasks[id].projectId) &&
                      t.tasks[id].projectId in t.projects && t.projects[t.tasks[id].projectId].archivedAt.None?
    ensures r.Ok? ==> t.tasks[id].updatedAt == lastKnown && t.tasks[id].status != Done
    ensures claims.None? ==> r == Err(AuthenticationRequired)
    ensures claims.Some? && env.zones(tzName).None? ==> r == Err(InvalidTimezone)
    ensures claims.Some? && env.zones(tzName).Some? && claims.value !in t.users ==> r == Err(QueryFailed)
    ensures SignedIn(t, claims, tzName, env) && id !in t.tasks ==> r == Err(NotFound)
    ensures (SignedIn(t, claims, tzName, env) && id in t.tasks &&
             !TasksWritable(t, t.users[claims.value], t.tasks[id].projectId)) ==> r == Err(PermissionDenied)
    ensures (SignedIn(t, claims, tzName, env) && id in t.tasks &&
             TasksWritable(t, t.users[claims.value], t.tasks[id].projectId) &&
             Stale(t.tasks[id].updatedAt, lastKnown)) ==> r == Err(ConflictStaleWrite)
    ensures (SignedIn(t, claims, tzName, env) && id in t.tasks &&
             TasksWritable(t, t.users[claims.value], t.tasks[id].projectId) &&
             !Stale(t.tasks[id].updatedAt, lastKnown) && t.tasks[id].status == Done) ==> r == Err(ValidationFailed)
    ensures r.Ok? <==> SignedIn(t, claims, tzName, env) && id in t.tasks &&
                       TasksWritable(t, t.users[claims.value], t.tasks[id].projectId) &&
                       !Stale(t.tasks[id].updatedAt, lastKnown) && t.tasks[id].status != Done
  {
    if claims.None? then Err(AuthenticationRequired)
    else if env.zones(tzName).None? then Err(InvalidTimezone)
    else
      match CallerId(t.users, claims)
      case Err(e) => Err(e)
      case Ok(u) =>
        if id !in t.tasks then Err(NotFound)
        else
          var task := t.tasks[id];
          if RequireMember(t.projects, t.members, u, task.projectId).Err? then Err(PermissionDenied)
          else if t.projects[task.projectId].archivedAt.Some? then Err(PermissionDenied)
          else if Stale(task.updatedAt, lastKnown) then Err(ConflictStaleWrite)
          else if task.status == Done then Err(ValidationFailed)
          else Ok(u)
  }

  /// The abandoned row: status, abandonment stamp and abandoning user
  /// change; `updated_at` does not.
  function AbandonedRow(task: Task, u: Id, stamp: string): Task
  {
    task.(status := Abandoned, abandonedAt := Some(stamp), abandonedBy := Some(u))
  }

  /// The tables right after the UPDATE of `abandon_task`.
  function AfterAbandon(t: Tables, id: Id, u: Id, stamp: string): Tables
    requires id in t.tasks
  {
    t.(tasks := t.tasks[id := AbandonedRow(t.tasks[id], u, stamp)])
  }

  /// What `abandon_task` returns and leaves in the tables: the top-up of
  /// the task's series runs after the row is reread, and its outcome,
  /// error or not, is ignored.
  function AbandonOutcome(t: Tables, base: Id, claims: Option<string>, id: Id, lastKnown: string,
                          tzName: string, env: Env): (o: (Result<TaskView>, Tables))
    ensures o.0.Err? ==> o.1 == t
    ensures o.0.Ok? ==> id in t.tasks && o.0.value.id == id && o.0.value.row.status == Abandoned
  {
    match AbandonValidation(t, claims, id, lastKnown, tzName, env)
    case Err(e) => (Err(e), t)
    case Ok(u) =>
      var row := AbandonedRow(t.tasks[id], u, env.milliStamp);
      var t1 := AfterAbandon(t, id, u, env.milliStamp);
      var view := ViewOf(id, row, env.zones(tzName).value, env.now);
      if row.seriesId.None? then (Ok(view), t1)
      else if TopUpPlan(t1, row.seriesId.value, tzName, env).Err? then (Ok(view), t1)
      else (Ok(view), TopUpAfter(t1, base, row.seriesId.value, tzName, env))
  }

  /// The statement form of `AbandonValidation`, proved equal to it: the resolver runs
  /// these statements, and proving them here on their own keeps the
  /// resolver's proof small.
  method ValidateAbandon(t: Tables, claims: Option<string>, id: Id, lastKnown: string, tzName: string, env: Env)
    returns (v: Result<Id>)
    ensures v == AbandonValidation(t, claims, id, lastKnown, tzName, env)
  {
    if claims.None? {
      return Err(AuthenticationRequired);
    }
    if env.zones(tzName).None? {
      return Err(InvalidTimezone);
    }
    var caller := CallerId(t.users, claims);
    if caller.Err? {
      return Err(caller.error);
    }
    var u := caller.value;
    if id !in t.tasks {
      return Err(NotFound);
    }
    var task := t.tasks[id];
    if RequireMember(t.projects, t.members, u, task.projectId).Err? {
      return Err(PermissionDenied);
    }
    if t.projects[task.projectId].archivedAt.Some? {
      return Err(PermissionDenied);
    }
    if Stale(task.updatedAt, lastKnown) {
      return Err(ConflictStaleWrite);
    }
    if task.status == Done {
      return Err(ValidationFailed);
    }
    return Ok(u);
  }

  /// The UPDATE of `abandon_task`.
  method MarkAbandoned(db: Store, id: Id, u: Id, stamp: string)
    requires db.Valid() && id in db.tasks
    modifies db
    ensures db.Valid() && db.nextId == old(db.nextId)
    ensures db.State() == AfterAbandon(old(db.State()), id, u, stamp)
  {
    db.tasks := db.tasks[id := AbandonedRow(db.tasks[id], u, stamp)];
  }

  /// `abandon_task`.
  method AbandonTask(db: Store, claims: Option<string>, id: Id, lastKnown: string, tzName: string, env: Env)
    returns (r: Result<TaskView>)
    requires db.Valid()
    modifies db
    ensures db.Valid()
    ensures (r, db.State()) == AbandonOutcome(old(db.State()), old(db.nextId), claims, id, lastKnown, tzName, env)
  {
    var v := ValidateAbandon(db.State(), claims, id, lastKnown, tzName, env);
    if v.Err? {
      return Err(v.error);
    }
    MarkAbandoned(db, id, v.value, env.milliStamp);
    var row := db.tasks[id];
    if row.seriesId.Some? {
      var _ := TopUpSeries(db, row.seriesId.value, tzName, env);
    }
    r := Ok(ViewOf(id, row, env.zones(tzName).value, env.now));
  }

  // ---------------------------------------------------------------------
  // Properties
  // ---------------------------------------------------------------------

  /// The tag check of `create_task` accepts a non-empty list exactly when
  /// every id names a tag and no id is repeated: a repeated id is counted
  /// once by the `IN` query and so fails the check like a missing one.
  lemma TagCountAcceptsExactly(tags: map<Id, Tag>, ids: seq<Id>)
    ensures MatchingTagCount(tags, ids) == |ids| <==> Distinct(ids) && (forall i :: 0 <= i < |ids| ==> ids[i] in tags)
  {
    DistinctCount(ids);
    var s := TagSet(ids);
    IntersectionCount(s, tags.Keys);
    if forall i :: 0 <= i < |ids| ==> ids[i] in tags {
      assert s <= tags.Keys;
    } else {
      var i :| 0 <= i < |ids| && ids[i] !in tags;
      assert ids[i] in s;
    }
  }

  /// A list names as many ids as it has entries exactly when no entry
  /// repeats.
  lemma {:induction false} DistinctCount(ids: seq<Id>)
    ensures |TagSet(ids)| <= |ids|
    ensures |TagSet(ids)| == |ids| <==> Distinct(ids)
  {
    if |ids| > 0 {
      var rest := ids[1..];
      DistinctCount(rest);
      assert TagSet(ids) == {ids[0]} + TagSet(rest);
      if ids[0] in TagSet(rest) {
        assert TagSet(ids) == TagSet(rest);
        var j :| 0 <= j < |rest| && rest[j] == ids[0];
        assert ids[0] == ids[j + 1];
      } else {
        assert |TagSet(ids)| == 1 + |TagSet(rest)|;
        if Distinct(rest) {
          forall i, j | 0 <= i < j < |ids|
            ensures ids[i] != ids[j]
          {
            if i == 0 {
              assert ids[j] == rest[j - 1];
            } else {
              assert ids[i] == rest[i - 1] && ids[j] == rest[j - 1];
            }
          }
        } else {
          var i, j :| 0 <= i < j < |rest| && rest[i] == rest[j];
          assert ids[i + 1] == ids[j + 1];
        }
      }
    }
  }

  /// Intersecting with `k` keeps every element exactly when `s` lies
  /// inside `k`.
  lemma IntersectionCount(s: set<Id>, k: set<Id>)
    ensures |s * k| <= |s|
    ensures |s * k| == |s| <==> s <= k
  {
    SubsetSize(s * k, s);
    if !(s <= k) {
      var x :| x in s && x !in k;
      SubsetSize(s * k, s - {x});
    } else {
      assert s * k == s;
    }
  }

  lemma {:induction false} SubsetSize(a: set<Id>, b: set<Id>)
    requires a <= b
    ensures |a| <= |b|
    decreases |b|
  {
    if a != {} {
      var x :| x in a;
      SubsetSize(a - {x}, b - {x});
    }
  }

  /// A created task is a `todo` task of the caller in a project the caller
  /// is a member of and that is not archived; it is stored under a fresh
  /// id with the trimmed title, linked to exactly the listed tags, and no
  /// other row changes.
  lemma CreatedTaskIsFresh(t: Tables, base: Id, claims: Option<string>, input: CreateTaskInput,
                           tzName: string, env: Env)
    requires forall k :: k in t.tasks ==> k < base
    requires forall p :: p in t.taskTags ==> p.0 < base
    requires CreateTaskOutcome(t, base, claims, input, tzName, env).0.Ok?
    ensures var (r, t1) := CreateTaskOutcome(t, base, claims, input, tzName, env);
            var u := t.users[claims.value];
            r.value.id == base && base !in t.tasks && t1.tasks == t.tasks[base := r.value.row] &&
            r.value.row.status == Todo && r.value.row.authorId == u && r.value.row.seriesId.None? &&
            r.value.row.title == Trim(input.title, RustSpace) &&
            IsMember(t.projects, t.members, u, input.projectId) &&
            (forall g :: (base, g) in t1.taskTags <==> g in input.tagIds.UnwrapOr([])) &&
            t1.(tasks := t.tasks, taskTags := t.taskTags) == t
  {
  }

  /// Abandoning keeps `updated_at`: the caller's token still matches, so
  /// abandoning the same task again is accepted.
  lemma AbandonKeepsToken(t: Tables, base: Id, claims: Option<string>, id: Id, lastKnown: string,
                          tzName: string, env: Env)
    requires AbandonOutcome(t, base, claims, id, lastKnown, tzName, env).0.Ok?
    ensures var t1 := AfterAbandon(t, id, t.users[claims.value], env.milliStamp);
            t1.tasks[id].updatedAt == t.tasks[id].updatedAt &&
            t1.tasks[id].status == Abandoned &&
            AbandonValidation(t1, claims, id, lastKnown, tzName, env).Ok?
  {
  }

  /// A task cannot be created in an archived project, whether or not the
  /// caller is a member: the answer is PERMISSION_DENIED and nothing is
  /// written.
  lemma CreateInArchivedProjectRefused(t: Tables, base: Id, claims: Option<string>, input: CreateTaskInput,
                                       tzName: string, env: Env)
    requires SignedIn(t, claims, tzName, env)
    requires input.projectId in t.projects && t.projects[input.projectId].archivedAt.Some?
    ensures CreateTaskOutcome(t, base, claims, input, tzName, env) == (Err(PermissionDenied), t)
  {
  }

  /// A task of an archived project cannot be abandoned: the answer is
  /// PERMISSION_DENIED and nothing is written.
  lemma AbandonInArchivedProjectRefused(t: Tables, base: Id, claims: Option<string>, id: Id, lastKnown: string,
                                        tzName: string, env: Env)
    requires SignedIn(t, claims, tzName, env) && id in t.tasks
    requires t.tasks[id].projectId in t.projects && t.projects[t.tasks[id].projectId].archivedAt.Some?
    ensures AbandonOutcome(t, base, claims, id, lastKnown, tzName, env) == (Err(PermissionDenied), t)
  {
  }

  /// A member holding a stale token is refused with CONFLICT_STALE_WRITE
  /// before anything is written, even for a task that is already done.
  lemma AbandonStaleRefused(t: Tables, base: Id, claims: Option<string>, id: Id, lastKnown: string,
                            tzName: string, env: Env)
    requires SignedIn(t, claims, tzName, env) && id in t.tasks
    requires TasksWritable(t, t.users[claims.value], t.tasks[id].projectId)
    requires t.tasks[id].updatedAt != lastKnown
    ensures AbandonOutcome(t, base, claims, id, lastKnown, tzName, env) == (Err(ConflictStaleWrite), t)
  {
  }

  /// A completed task cannot be abandoned, even with a current token: the
  /// answer is VALIDATION_FAILED and nothing is written.
  lemma AbandonDoneRefused(t: Tables, base: Id, claims: Option<string>, id: Id, tzName: string, env: Env)
    requires SignedIn(t, claims, tzName, env) && id in t.tasks && t.tasks[id].status == Done
    requires TasksWritable(t, t.users[claims.value], t.tasks[id].projectId)
    ensures AbandonOutcome(t, base, claims, id, t.tasks[id].updatedAt, tzName, env) == (Err(ValidationFailed), t)
  {
  }
}
