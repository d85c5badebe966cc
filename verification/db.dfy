// The rows of the takenlijst SQLite database and the store that holds
// them. Every resolver of the model reads and writes one `Store`; the
// outside world it consults (clock, time zones, the recurrence expander,
// the server-side name normalisers) arrives as an `Env` value.

module Db {
  import opened Common
  import opened Clock
  import opened Classifier

  datatype Task = Task(
    projectId: Id,
    authorId: Id,
    assigneeId: Option<Id>,
    seriesId: Option<Id>,
    title: string,
    description: Option<string>,
    status: TaskStatus,
    scheduledDate: Option<DateText>,
    scheduledTime: Option<I32>,
    deadlineDate: Option<DateText>,
    deadlineTime: Option<I32>,
    completedAt: Option<string>,
    completedBy: Option<Id>,
    abandonedAt: Option<string>,
    abandonedBy: Option<Id>,
    createdAt: string,
    updatedAt: string)

  /// A row of `recurring_series`.
  datatype Series = Series(
    projectId: Id,
    createdBy: Id,
    title: string,
    description: Option<string>,
    assigneeId: Option<Id>,
    rrule: string,
    dtstartDate: DateText,
    dtstartTime: Option<I32>,
    deadlineOffset: I32,
    createdAt: string,
    updatedAt: string)

  datatype Project = Project(name: string, ownerId: Id, archivedAt: Option<string>,
                             createdAt: string, updatedAt: string)

  datatype Tag = Tag(name: string, createdAt: string, updatedAt: string)

  /// A row of `saved_views`; `filters` is the stored JSON text.
  datatype SavedView = SavedView(projectId: Id, name: string, filters: string, createdBy: Id,
                                 createdAt: string, updatedAt: string)

  datatype RefreshRow = RefreshRow(userId: Id, token: string)

  /// Every table at one moment.
  datatype Tables = Tables(
    users: map<string, Id>,
    projects: map<Id, Project>,
    members: set<(Id, Id)>,
    series: map<Id, Series>,
    seriesTags: set<(Id, Id)>,
    tasks: map<Id, Task>,
    taskTags: set<(Id, Id)>,
    tags: map<Id, Tag>,
    savedViews: map<Id, SavedView>,
    defaultView: map<Id, Id>,
    refreshTokens: map<Id, RefreshRow>)

  /// The recurrence library: whether an RRULE text parses on its own, and
  /// the occurrences (as instants, ascending) of an RRULE with a DTSTART of
  /// the given local date, optional minute and zone name, or None when
  /// that rule set does not parse.
  datatype RuleEngine = RuleEngine(
    parses: string -> bool,
    expand: (string, string, Day, Option<MinuteOfDay>) -> Option<seq<Instant>>)

  /// What a resolver reads from outside the database. `tagTouchStamp` is
  /// what the `tags` table's update trigger writes into `updated_at` when
  /// a row changes; the schema that defines it is not part of this model.
  datatype Env = Env(
    now: Instant,
    secondStamp: string,
    milliStamp: string,
    tagTouchStamp: string,
    zones: string -> Option<Zone>,
    rules: RuleEngine,
    normalizeTagName: string -> string,
    normalizeProjectName: string -> string)

  class Store {
    /// `users`, indexed by its unique `username` column.
    var users: map<string, Id>
    var projects: map<Id, Project>
    /// `project_members` as (project, user) pairs.
    var members: set<(Id, Id)>
    var series: map<Id, Series>
    /// `recurring_series_tags` as (series, tag) pairs.
    var seriesTags: set<(Id, Id)>
    var tasks: map<Id, Task>
    /// `task_tags` as (task, tag) pairs.
    var taskTags: set<(Id, Id)>
    var tags: map<Id, Tag>
    var savedViews: map<Id, SavedView>
    /// `project_default_view`: project to its default saved view.
    var defaultView: map<Id, Id>
    var refreshTokens: map<Id, RefreshRow>
    /// Source of fresh row ids.
    var nextId: Id

    function State(): Tables
      reads this
    {
      Tables(users, projects, members, series, seriesTags, tasks, taskTags, tags,
             savedViews, defaultView, refreshTokens)
    }

    /// Ids below `nextId` are taken; tag names are unique; every default
    /// pointer names an existing view of the same project.
    ghost predicate Valid()
      reads this
    {
      TablesValid(State(), nextId)
    }

    constructor ()
      ensures Valid()
      ensures State() == Tables(map[], map[], {}, map[], {}, map[], {}, map[], map[], map[], map[])
    {
      users, projects, members, series, seriesTags := map[], map[], {}, map[], {};
      tasks, taskTags, tags, savedViews, defaultView := map[], {}, map[], map[], map[];
      refreshTokens, nextId := map[], 0;
    }

    /// Draws an id no row uses yet.
    method FreshId() returns (id: Id)
      requires Valid()
      modifies this
      ensures Valid() && State() == old(State())
      ensures id == old(nextId) && nextId == id + 1
      ensures id !in tasks && id !in projects && id !in series && id !in tags
      ensures id !in savedViews && id !in refreshTokens
    {
      id := nextId;
      nextId := nextId + 1;
    }

    /// Puts back the tables a recurring-series update writes (the series,
    /// their default tags, the tasks and the task tags), as the rollback of
    /// its transaction; the other tables are not touched by that
    /// transaction and stay as they are.
    method Rollback(saved: Tables)
      requires TablesValid(State().(series := saved.series, seriesTags := saved.seriesTags,
                                    tasks := saved.tasks, taskTags := saved.taskTags), nextId)
      modifies this
      ensures State() == old(State()).(series := saved.series, seriesTags := saved.seriesTags,
                                       tasks := saved.tasks, taskTags := saved.taskTags)
      ensures nextId == old(nextId) && Valid()
    {
      series, seriesTags, tasks, taskTags := saved.series, saved.seriesTags, saved.tasks, saved.taskTags;
    }
  }

  ghost predicate TablesValid(t: Tables, nextId: Id)
  {
    (forall n :: n in t.users ==> t.users[n] < nextId) &&
    (forall k :: k in t.projects ==> k < nextId) &&
    (forall k :: k in t.series ==> k < nextId) &&
    (forall k :: k in t.tasks ==> k < nextId) &&
    (forall k :: k in t.tags ==> k < nextId) &&
    (forall k :: k in t.savedViews ==> k < nextId) &&
    (forall k :: k in t.refreshTokens ==> k < nextId) &&
    TagNamesUnique(t.tags) &&
    DefaultViewsSound(t.defaultView, t.savedViews)
  }

  ghost predicate TagNamesUnique(tags: map<Id, Tag>)
  {
    forall a, b :: a in tags && b in tags && tags[a].name == tags[b].name ==> a == b
  }

  ghost predicate DefaultViewsSound(defaultView: map<Id, Id>, views: map<Id, SavedView>)
  {
    forall p :: p in defaultView ==> defaultView[p] in views && views[defaultView[p]].projectId == p
  }

  /// The id of the user named in the login claims: no claims is a missing
  /// login, an unknown name a failed single-row query.
  /// The claims name a user row, so the caller's id lookup succeeds.
  predicate KnownCaller(t: Tables, claims: Option<string>)
  {
    claims.Some? && claims.value in t.users
  }

  function CallerId(users: map<string, Id>, claims: Option<string>): (r: Result<Id>)
    ensures claims.None? ==> r == Err(AuthenticationRequired)
    ensures claims.Some? && claims.value !in users ==> r == Err(QueryFailed)
    ensures r.Ok? <==> claims.Some? && claims.value in users
    ensures r.Ok? ==> r.value == users[claims.value]
  {
    if claims.None? then Err(AuthenticationRequired)
    else if claims.value !in users then Err(QueryFailed)
    else Ok(users[claims.value])
  }

  /// The ids a list names, without repeats.
  function TagSet(ids: seq<Id>): (r: set<Id>)
    ensures forall g :: g in r <==> g in ids
  {
    set g | g in ids
  }

  /// `user_exists`-style lookups: is `u` the id of some user row.
  predicate UserExists(users: map<string, Id>, u: Id)
  {
    u in users.Values
  }
}
