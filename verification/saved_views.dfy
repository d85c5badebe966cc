// The saved-view resolvers (server/src/graphql/takenlijst/
// create_saved_view.rs, mutations/update_saved_view.rs,
// delete_saved_view.rs and set_project_default_saved_view.rs). A saved
// view belongs to a project, is usable by the project's members, stores
// its filters as JSON text and is named uniquely within its project as
// SQLite compares names: `LOWER(TRIM(name))`. A project may point at one
// of its views as its default.

module SavedViews {
  import opened Common
  import opened Text
  import opened Db
  import opened Guard
  import opened FiltersJson
  import Projects

  /// A saved view as the resolvers return it: the row with its filters
  /// decoded.
  datatype ViewOut = ViewOut(id: Id, projectId: Id, name: string, filters: Filters, createdBy: Id,
                             createdAt: string, updatedAt: string)

  function Answer(id: Id, row: SavedView, f: Filters): ViewOut
  {
    ViewOut(id, row.projectId, row.name, f, row.createdBy, row.createdAt, row.updatedAt)
  }

  /// SQLite's default `TRIM` removes spaces only.
  predicate SqlSpace(c: char)
  {
    c == ' '
  }

  /// SQLite's `LOWER(TRIM(name))`; `LOWER` folds ASCII letters only.
  function NameKey(name: string): string
  {
    AsciiLower(Trim(name, SqlSpace))
  }

  /// Some view of project `p` other than `except` has a name with the
  /// same key as `name`.
  predicate NameTaken(views: map<Id, SavedView>, p: Id, name: string, except: Option<Id>)
  {
    exists k :: k in views && views[k].projectId == p && NameKey(views[k].name) == NameKey(name) &&
                (except.None? || k != except.value)
  }

  /// No two views of one project share a name key.
  ghost predicate ViewNamesUnique(views: map<Id, SavedView>)
  {
    forall a, b :: (a in views && b in views && views[a].projectId == views[b].projectId &&
                    NameKey(views[a].name) == NameKey(views[b].name)) ==> a == b
  }

  /// Every stored filters text decodes.
  ghost predicate FiltersReadable(views: map<Id, SavedView>)
  {
    forall k :: k in views ==> Decode(views[k].filters).Some?
  }

  /// The logged-in caller is a member of project `p`.
  predicate CallerIsMember(t: Tables, claims: Option<string>, p: Id)
  {
    claims.Some? && claims.value in t.users && IsMember(t.projects, t.members, t.users[claims.value], p)
  }

  /// The rows the filters name exist: the assignee among the users, each
  /// tag among the tags.
  predicate RefsExist(t: Tables, f: Filters)
  {
    (f.assignee.Some? ==> UserExists(t.users, f.assignee.value)) &&
    forall i :: 0 <= i < |f.tagIds| ==> f.tagIds[i] in t.tags
  }

  // ---------------------------------------------------------------------
  // Checks shared by create and update
  // ---------------------------------------------------------------------

  /// The filter checks: the assignee first, then the tags in order.
  function FilterRefs(t: Tables, f: Filters): (r: Result<()>)
    ensures r.Ok? <==> RefsExist(t, f)
    ensures r.Err? ==> r.error == NotFound
  {
    if f.assignee.Some? && !UserExists(t.users, f.assignee.value) then Err(NotFound)
    else if exists i :: 0 <= i < |f.tagIds| && f.tagIds[i] !in t.tags then Err(NotFound)
    else Ok(())
  }

  /// The loop over the tag ids: stops at the first one without a row.
  method CheckTagIds(tags: map<Id, Tag>, ids: seq<Id>) returns (ok: bool)
    ensures ok <==> forall i :: 0 <= i < |ids| ==> ids[i] in tags
  {
    for i := 0 to |ids|
      invariant forall j :: 0 <= j < i ==> ids[j] in tags
    {
      if ids[i] !in tags {
        return false;
      }
    }
    return true;
  }

  method CheckFilterRefs(t: Tables, f: Filters) returns (r: Result<()>)
    ensures r == FilterRefs(t, f)
  {
    if f.assignee.Some? && !UserExists(t.users, f.assignee.value) {
      return Err(NotFound);
    }
    var ok := CheckTagIds(t.tags, f.tagIds);
    if !ok {
      return Err(NotFound);
    }
    return Ok(());
  }

  // ---------------------------------------------------------------------
  // create_saved_view
  // ---------------------------------------------------------------------

  /// The checks of `create_saved_view`: the login, the caller's row,
  /// membership, the name, its uniqueness in the project, then the
  /// filters. The result is the caller's id and the name to store.
  function CreateViewValidation(t: Tables, claims: Option<string>, p: Id, name: string, f: Filters, env: Env)
    : (r: Result<(Id, string)>)
    ensures r.Ok? <==> CallerIsMember(t, claims, p) && Projects.CheckedName(name, env).Ok? &&
                       !NameTaken(t.savedViews, p, env.normalizeProjectName(name), None) && RefsExist(t, f)
    ensures r.Ok? ==> r.value == (t.users[claims.value], env.normalizeProjectName(name))
    ensures claims.None? ==> r == Err(AuthenticationRequired)
    ensures claims.Some? && claims.value !in t.users ==> r == Err(QueryFailed)
    ensures claims.Some? && claims.value in t.users && !CallerIsMember(t, claims, p) ==> r == Err(PermissionDenied)
    ensures CallerIsMember(t, claims, p) && Projects.CheckedName(name, env).Err? ==> r == Err(ValidationFailed)
    ensures CallerIsMember(t, claims, p) && NameTaken(t.savedViews, p, env.normalizeProjectName(name), None) ==>
              r == Err(ValidationFailed)
  {
    match CallerId(t.users, claims)
    case Err(e) => Err(e)
    case Ok(u) =>
      if RequireMember(t.projects, t.members, u, p).Err? then Err(PermissionDenied)
      else
        match Projects.CheckedName(name, env)
        case Err(e) => Err(e)
        case Ok(n) =>
          if NameTaken(t.savedViews, p, n, None) then Err(ValidationFailed)
          else
            match FilterRefs(t, f)
            case Err(e) => Err(e)
            case Ok(_) => Ok((u, n))
  }

  /// What `create_saved_view` returns and leaves when the next fresh id
  /// is `base`: one inserted row holding the encoded filters; the answer
  /// carries the filters as given.
  function CreateViewOutcome(t: Tables, base: Id, claims: Option<string>, p: Id, name: string, f: Filters, env: Env)
    : (o: (Result<ViewOut>, Tables))
    ensures o.0.Err? ==> o.1 == t
    ensures o.1.(savedViews := t.savedViews) == t
  {
    match CreateViewValidation(t, claims, p, name, f, env)
    case Err(e) => (Err(e), t)
    case Ok((u, n)) =>
      var row := SavedView(p, n, Encode(f), u, env.secondStamp, env.secondStamp);
      (Ok(Answer(base, row, f)), t.(savedViews := t.savedViews[base := row]))
  }

  /// The statement form of `CreateViewValidation`, proved equal to it: the resolver runs
  /// these statements, and proving them here on their own keeps the
  /// resolver's proof small.
  method ValidateCreate(t: Tables, claims: Option<string>, p: Id, name: string, f: Filters, env: Env)
    returns (r: Result<(Id, string)>)
    ensures r == CreateViewValidation(t, claims, p, name, f, env)
  {
    var caller := CallerId(t.users, claims);
    if caller.Err? {
      return Err(caller.error);
    }
    if RequireMember(t.projects, t.members, caller.value, p).Err? {
      return Err(PermissionDenied);
    }
    var n := Projects.CheckedName(name, env);
    if n.Err? {
      return Err(n.error);
    }
    if NameTaken(t.savedViews, p, n.value, None) {
      return Err(ValidationFailed);
    }
    var refs := CheckFilterRefs(t, f);
    if refs.Err? {
      return Err(refs.error);
    }
    return Ok((caller.value, n.value));
  }

  /// Writes one saved-view row under id `id`, either a fresh id or the
  /// id of a view of the same project.
  method StoreView(db: Store, id: Id, row: SavedView)
    requires db.Valid() && id < db.nextId
    requires id in db.savedViews ==> db.savedViews[id].projectId == row.projectId
    modifies db
    ensures db.Valid() && db.nextId == old(db.nextId)
    ensures db.State() == old(db.State()).(savedViews := old(db.savedViews)[id := row])
  {
    db.savedViews := db.savedViews[id := row];
  }

  method CreateSavedView(db: Store, claims: Option<string>, p: Id, name: string, f: Filters, env: Env)
    returns (r: Result<ViewOut>)
    requires db.Valid()
    modifies db
    ensures db.Valid()
    ensures (r, db.State()) == CreateViewOutcome(old(db.State()), old(db.nextId), claims, p, name, f, env)
  {
    var v := ValidateCreate(db.State(), claims, p, name, f, env);
    if v.Err? {
      return Err(v.error);
    }
    var id := db.FreshId();
    var row := SavedView(p, v.value.1, Encode(f), v.value.0, env.secondStamp, env.secondStamp);
    StoreView(db, id, row);
    r := Ok(Answer(id, row, f));
  }

  // ---------------------------------------------------------------------
  // update_saved_view
  // ---------------------------------------------------------------------

  /// The checks of `update_saved_view`: the login, the caller's row, the
  /// view, membership of its project, the token, then the fields given.
  /// The result is the name and the filters text to store; an absent
  /// field keeps the stored value.
  function UpdateViewValidation(t: Tables, claims: Option<string>, id: Id, name: Option<string>,
                                f: Option<Filters>, lastKnown: string, env: Env)
    : (r: Result<(string, string)>)
    ensures claims.None? ==> r == Err(AuthenticationRequired)
    ensures claims.Some? && claims.value !in t.users ==> r == Err(QueryFailed)
    ensures claims.Some? && claims.value in t.users && id !in t.savedViews ==> r == Err(NotFound)
    ensures (id in t.savedViews && claims.Some? && claims.value in t.users &&
             !CallerIsMember(t, claims, t.savedViews[id].projectId)) ==> r == Err(PermissionDenied)
    ensures (id in t.savedViews && CallerIsMember(t, claims, t.savedViews[id].projectId) &&
             Stale(t.savedViews[id].updatedAt, lastKnown)) ==> r == Err(ConflictStaleWrite)
    ensures r.Ok? ==> id in t.savedViews && CallerIsMember(t, claims, t.savedViews[id].projectId) &&
                      t.savedViews[id].updatedAt == lastKnown
    ensures r.Ok? ==> r.value.0 == (if name.Some? then env.normalizeProjectName(name.value) else t.savedViews[id].name)
    ensures r.Ok? ==> r.value.1 == (if f.Some? then Encode(f.value) else t.savedViews[id].filters)
    ensures r.Ok? && name.Some? ==> Projects.CheckedName(name.value, env).Ok? &&
                                    !NameTaken(t.savedViews, t.savedViews[id].projectId, r.value.0, Some(id))
    ensures r.Ok? && f.Some? ==> RefsExist(t, f.value)
    ensures ViewWritable(t, claims, id, lastKnown) ==>
              (r.Ok? <==> UpdatedName(t, id, name, env).Ok? && UpdatedFilters(t, id, f).Ok?)
    ensures (ViewWritable(t, claims, id, lastKnown) &&
             UpdatedName(t, id, name, env).Err?) ==> r == Err(ValidationFailed)
    ensures (ViewWritable(t, claims, id, lastKnown) && UpdatedName(t, id, name, env).Ok? &&
             UpdatedFilters(t, id, f).Err?) ==> r == Err(NotFound)
  {
    match CallerId(t.users, claims)
    case Err(e) => Err(e)
    case Ok(u) =>
      if id !in t.savedViews then Err(NotFound)
      else
        var v := t.savedViews[id];
        if RequireMember(t.projects, t.members, u, v.projectId).Err? then Err(PermissionDenied)
        else if Stale(v.updatedAt, lastKnown) then Err(ConflictStaleWrite)
        else
          match UpdatedName(t, id, name, env)
          case Err(e) => Err(e)
          case Ok(n) =>
            match UpdatedFilters(t, id, f)
            case Err(e) => Err(e)
            case Ok(text) => Ok((n, text))
  }

  /// The view exists, the caller is a member of its project and the token
  /// is current: what `update_saved_view` checks before the fields.
  predicate ViewWritable(t: Tables, claims: Option<string>, id: Id, lastKnown: string)
  {
    id in t.savedViews && CallerIsMember(t, claims, t.savedViews[id].projectId) &&
    !Stale(t.savedViews[id].updatedAt, lastKnown)
  }

  /// The name to store: a new name is normalised, checked and must not be
  /// taken by another view of the project; no name keeps the stored one.
  function UpdatedName(t: Tables, id: Id, name: Option<string>, env: Env): (r: Result<string>)
    requires id in t.savedViews
    ensures r.Err? ==> name.Some? && r.error == ValidationFailed
    ensures r.Ok? <==> name.None? || (Projects.CheckedName(name.value, env).Ok? &&
                        !NameTaken(t.savedViews, t.savedViews[id].projectId, env.normalizeProjectName(name.value), Some(id)))
    ensures r.Ok? ==> r.value == (if name.Some? then env.normalizeProjectName(name.value) else t.savedViews[id].name)
  {
    match name
    case None => Ok(t.savedViews[id].name)
    case Some(raw) =>
      match Projects.CheckedName(raw, env)
      case Err(e) => Err(e)
      case Ok(n) =>
        if NameTaken(t.savedViews, t.savedViews[id].projectId, n, Some(id)) then Err(ValidationFailed)
        else Ok(n)
  }

  /// The filters text to store: new filters are checked and encoded; no
  /// filters keep the stored text.
  function UpdatedFilters(t: Tables, id: Id, f: Option<Filters>): (r: Result<string>)
    requires id in t.savedViews
    ensures r.Err? ==> f.Some? && r.error == NotFound
    ensures r.Ok? <==> f.None? || RefsExist(t, f.value)
    ensures r.Ok? ==> r.value == (if f.Some? then Encode(f.value) else t.savedViews[id].filters)
  {
    match f
    case None => Ok(t.savedViews[id].filters)
    case Some(g) =>
      match FilterRefs(t, g)
      case Err(e) => Err(e)
      case Ok(_) => Ok(Encode(g))
  }

  /// The row after the UPDATE: new name and filters text, stamped now.
  function UpdatedRow(row: SavedView, name: string, text: string, stamp: string): SavedView
  {
    row.(name := name, filters := text, updatedAt := stamp)
  }

  /// What `update_saved_view` returns and leaves: after the checks the row
  /// takes the name and filters text and is stamped now; the reread text
  /// is then decoded, and a text that does not decode is an internal error
  /// although the row has been written.
  function UpdateViewOutcome(t: Tables, claims: Option<string>, id: Id, name: Option<string>,
                             f: Option<Filters>, lastKnown: string, env: Env)
    : (o: (Result<ViewOut>, Tables))
    ensures o.0.Err? && o.0.error != Internal ==> o.1 == t
    ensures o.1.(savedViews := t.savedViews) == t
  {
    match UpdateViewValidation(t, claims, id, name, f, lastKnown, env)
    case Err(e) => (Err(e), t)
    case Ok((n, text)) =>
      var row := UpdatedRow(t.savedViews[id], n, text, env.secondStamp);
      var t1 := t.(savedViews := t.savedViews[id := row]);
      match Decode(text)
      case None => (Err(Internal), t1)
      case Some(g) => (Ok(Answer(id, row, g)), t1)
  }

  /// The statement form of `UpdateViewValidation`, proved equal to it: the resolver runs
  /// these statements, and proving them here on their own keeps the
  /// resolver's proof small.
  method ValidateUpdate(t: Tables, claims: Option<string>, id: Id, name: Option<string>,
                        f: Option<Filters>, lastKnown: string, env: Env)
    returns (r: Result<(string, string)>)
    ensures r == UpdateViewValidation(t, claims, id, name, f, lastKnown, env)
  {
    var caller := CallerId(t.users, claims);
    if caller.Err? {
      return Err(caller.error);
    }
    if id !in t.savedViews {
      return Err(NotFound);
    }
    var v := t.savedViews[id];
    if RequireMember(t.projects, t.members, caller.value, v.projectId).Err? {
      return Err(PermissionDenied);
    }
    if Stale(v.updatedAt, lastKnown) {
      return Err(ConflictStaleWrite);
    }
    var n := UpdatedName(t, id, name, env);
    if n.Err? {
      return Err(n.error);
    }
    var text := v.filters;
    if f.Some? {
      var refs := CheckFilterRefs(t, f.value);
      if refs.Err? {
        return Err(refs.error);
      }
      text := Encode(f.value);
    }
    return Ok((n.value, text));
  }

  method UpdateSavedView(db: Store, claims: Option<string>, id: Id, name: Option<string>,
                         f: Option<Filters>, lastKnown: string, env: Env)
    returns (r: Result<ViewOut>)
    requires db.Valid()
    modifies db
    ensures db.Valid()
    ensures (r, db.State()) == UpdateViewOutcome(old(db.State()), claims, id, name, f, lastKnown, env)
  {
    var v := ValidateUpdate(db.State(), claims, id, name, f, lastKnown, env);
    if v.Err? {
      return Err(v.error);
    }
    var row := UpdatedRow(db.savedViews[id], v.value.0, v.value.1, env.secondStamp);
    StoreView(db, id, row);
    var g := Decode(row.filters);
    if g.None? {
      return Err(Internal);
    }
    r := Ok(Answer(id, row, g.value));
  }

  // ---------------------------------------------------------------------
  // delete_saved_view
  // ---------------------------------------------------------------------

  /// The default pointers that do not name view `id`.
  function DefaultsWithout(defaultView: map<Id, Id>, id: Id): (r: map<Id, Id>)
    ensures forall p :: p in r <==> p in defaultView && defaultView[p] != id
    ensures forall p :: p in r ==> r[p] == defaultView[p]
  {
    map p | p in defaultView && defaultView[p] != id :: defaultView[p]
  }

  /// What `delete_saved_view` returns and leaves: after the login, the
  /// caller's row, the view and membership of its project, the default
  /// pointers naming the view go, then the view.
  function DeleteViewOutcome(t: Tables, claims: Option<string>, id: Id): (o: (Result<bool>, Tables))
    ensures o.0.Err? ==> o.1 == t
    ensures o.1.(defaultView := t.defaultView, savedViews := t.savedViews) == t
    ensures o.0.Ok? ==> o.1.savedViews.Keys == t.savedViews.Keys - {id} && id in t.savedViews
  {
    match CallerId(t.users, claims)
    case Err(e) => (Err(e), t)
    case Ok(u) =>
      if id !in t.savedViews then (Err(NotFound), t)
      else if RequireMember(t.projects, t.members, u, t.savedViews[id].projectId).Err? then (Err(PermissionDenied), t)
      else (Ok(true), t.(defaultView := DefaultsWithout(t.defaultView, id), savedViews := t.savedViews - {id}))
  }

  method DeleteSavedView(db: Store, claims: Option<string>, id: Id) returns (r: Result<bool>)
    requires db.Valid()
    modifies db
    ensures db.Valid()
    ensures (r, db.State()) == DeleteViewOutcome(old(db.State()), claims, id)
  {
    var caller := CallerId(db.users, claims);
    if caller.Err? {
      return Err(caller.error);
    }
    if id !in db.savedViews {
      return Err(NotFound);
    }
    if RequireMember(db.projects, db.members, caller.value, db.savedViews[id].projectId).Err? {
      return Err(PermissionDenied);
    }
    db.defaultView := DefaultsWithout(db.defaultView, id);
    var before := |db.savedViews|;
    db.savedViews := db.savedViews - {id};
    r := Ok(|db.savedViews| < before);
  }

  // ---------------------------------------------------------------------
  // set_project_default_saved_view
  // ---------------------------------------------------------------------

  /// What `set_project_default_saved_view` returns and leaves: after the
  /// login, the caller's row and membership of the project, a view of that
  /// project becomes its default, or no view clears the default.
  function SetDefaultOutcome(t: Tables, claims: Option<string>, p: Id, view: Option<Id>)
    : (o: (Result<bool>, Tables))
    ensures o.0.Err? ==> o.1 == t
    ensures o.1.(defaultView := t.defaultView) == t
    ensures o.0.Ok? ==> o.1.defaultView - {p} == t.defaultView - {p}
  {
    match CallerId(t.users, claims)
    case Err(e) => (Err(e), t)
    case Ok(u) =>
      if RequireMember(t.projects, t.members, u, p).Err? then (Err(PermissionDenied), t)
      else
        match view
        case None => (Ok(true), t.(defaultView := t.defaultView - {p}))
        case Some(v) =>
          if v in t.savedViews && t.savedViews[v].projectId == p then
            (Ok(true), t.(defaultView := t.defaultView[p := v]))
          else (Err(NotFound), t)
  }

  method SetProjectDefaultSavedView(db: Store, claims: Option<string>, p: Id, view: Option<Id>)
    returns (r: Result<bool>)
    requires db.Valid()
    modifies db
    ensures db.Valid()
    ensures (r, db.State()) == SetDefaultOutcome(old(db.State()), claims, p, view)
  {
    var caller := CallerId(db.users, claims);
    if caller.Err? {
      return Err(caller.error);
    }
    if RequireMember(db.projects, db.members, caller.value, p).Err? {
      return Err(PermissionDenied);
    }
    if view.Some? {
      var v := view.value;
      if !(v in db.savedViews && db.savedViews[v].projectId == p) {
        return Err(NotFound);
      }
      db.defaultView := db.defaultView[p := v];
    } else {
      db.defaultView := db.defaultView - {p};
    }
    r := Ok(true);
  }

  // ---------------------------------------------------------------------
  // Properties
  // ---------------------------------------------------------------------

  /// A created view is stored under the fresh id with the normalised name
  /// and the caller as creator, and its stored text reads back as the
  /// filters given, which the answer also carries.
  lemma CreatedViewReadsBack(t: Tables, base: Id, claims: Option<string>, p: Id, name: string, f: Filters, env: Env)
    requires CreateViewOutcome(t, base, claims, p, name, f, env).0.Ok?
    ensures var (r, t1) := CreateViewOutcome(t, base, claims, p, name, f, env);
            base in t1.savedViews && r.value.id == base && r.value.filters == f &&
            t1.savedViews[base].projectId == p && t1.savedViews[base].name == env.normalizeProjectName(name) &&
            t1.savedViews[base].createdBy == t.users[claims.value] &&
            Decode(t1.savedViews[base].filters) == Some(f)
  {
    DecodeEncode(f);
  }

  /// Adding a view whose name no view of its project has keeps names
  /// distinct.
  lemma InsertKeepsNamesUnique(views: map<Id, SavedView>, k: Id, row: SavedView)
    requires ViewNamesUnique(views) && k !in views && !NameTaken(views, row.projectId, row.name, None)
    ensures ViewNamesUnique(views[k := row])
  {
    var views1 := views[k := row];
    forall a, b | a in views1 && b in views1 && views1[a].projectId == views1[b].projectId &&
                  NameKey(views1[a].name) == NameKey(views1[b].name)
      ensures a == b
    {
      if a != k && b != k {
        assert views1[a] == views[a] && views1[b] == views[b];
      }
    }
  }

  /// Replacing a view by a row of the same project keeps names distinct
  /// when the row keeps the view's name key or takes one no other view of
  /// the project has.
  lemma ReplaceKeepsNamesUnique(views: map<Id, SavedView>, k: Id, row: SavedView)
    requires ViewNamesUnique(views) && k in views && row.projectId == views[k].projectId
    requires NameKey(row.name) == NameKey(views[k].name) || !NameTaken(views, row.projectId, row.name, Some(k))
    ensures ViewNamesUnique(views[k := row])
  {
    var views1 := views[k := row];
    forall a, b | a in views1 && b in views1 && views1[a].projectId == views1[b].projectId &&
                  NameKey(views1[a].name) == NameKey(views1[b].name)
      ensures a == b
    {
      if a != k && b != k {
        assert views1[a] == views[a] && views1[b] == views[b];
      }
    }
  }

  /// Creating a view keeps the names of each project's views distinct.
  lemma CreateKeepsViewNamesUnique(t: Tables, base: Id, claims: Option<string>, p: Id, name: string, f: Filters, env: Env)
    requires ViewNamesUnique(t.savedViews) && base !in t.savedViews
    ensures ViewNamesUnique(CreateViewOutcome(t, base, claims, p, name, f, env).1.savedViews)
  {
    var v := CreateViewValidation(t, claims, p, name, f, env);
    if v.Ok? {
      InsertKeepsNamesUnique(t.savedViews, base, SavedView(p, v.value.1, Encode(f), v.value.0, env.secondStamp, env.secondStamp));
    }
  }

  /// An accepted update replaces the view's row and changes nothing else.
  lemma UpdateWritesOneRow(t: Tables, claims: Option<string>, id: Id, name: Option<string>,
                           f: Option<Filters>, lastKnown: string, env: Env)
    requires UpdateViewValidation(t, claims, id, name, f, lastKnown, env).Ok?
    ensures var v := UpdateViewValidation(t, claims, id, name, f, lastKnown, env).value;
            UpdateViewOutcome(t, claims, id, name, f, lastKnown, env).1 ==
              t.(savedViews := t.savedViews[id := UpdatedRow(t.savedViews[id], v.0, v.1, env.secondStamp)])
  {
  }

  /// Updating a view keeps the names of each project's views distinct:
  /// a new name is checked against the project's other views, and no name
  /// keeps the stored one.
  lemma UpdateKeepsViewNamesUnique(t: Tables, claims: Option<string>, id: Id, name: Option<string>,
                                   f: Option<Filters>, lastKnown: string, env: Env)
    requires ViewNamesUnique(t.savedViews)
    ensures ViewNamesUnique(UpdateViewOutcome(t, claims, id, name, f, lastKnown, env).1.savedViews)
  {
    var v := UpdateViewValidation(t, claims, id, name, f, lastKnown, env);
    if v.Ok? {
      UpdateWritesOneRow(t, claims, id, name, f, lastKnown, env);
      ReplaceKeepsNamesUnique(t.savedViews, id, UpdatedRow(t.savedViews[id], v.value.0, v.value.1, env.secondStamp));
    }
  }

  /// Creating stores a text that decodes.
  lemma CreateKeepsFiltersReadable(t: Tables, base: Id, claims: Option<string>, p: Id, name: string, f: Filters, env: Env)
    requires FiltersReadable(t.savedViews)
    ensures FiltersReadable(CreateViewOutcome(t, base, claims, p, name, f, env).1.savedViews)
  {
    DecodeEncode(f);
  }

  /// Updating stores a text that decodes: new filters are encoded, and no
  /// filters keep the stored text.
  lemma UpdateKeepsFiltersReadable(t: Tables, claims: Option<string>, id: Id, name: Option<string>,
                                   f: Option<Filters>, lastKnown: string, env: Env)
    requires FiltersReadable(t.savedViews)
    ensures FiltersReadable(UpdateViewOutcome(t, claims, id, name, f, lastKnown, env).1.savedViews)
  {
    if UpdateViewValidation(t, claims, id, name, f, lastKnown, env).Ok? {
      UpdateWritesOneRow(t, claims, id, name, f, lastKnown, env);
      if f.Some? {
        DecodeEncode(f.value);
      }
    }
  }

  /// When every stored text decodes, an update never ends in the internal
  /// error, and its answer carries the filters given or, without them,
  /// the ones stored before.
  lemma ReadableUpdateAnswers(t: Tables, claims: Option<string>, id: Id, name: Option<string>,
                              f: Option<Filters>, lastKnown: string, env: Env)
    requires FiltersReadable(t.savedViews)
    requires UpdateViewValidation(t, claims, id, name, f, lastKnown, env).Ok?
    ensures var r := UpdateViewOutcome(t, claims, id, name, f, lastKnown, env).0;
            r.Ok? && r.value.id == id && r.value.updatedAt == env.secondStamp &&
            r.value.filters == (if f.Some? then f.value else Decode(t.savedViews[id].filters).value)
  {
    if f.Some? {
      DecodeEncode(f.value);
    }
  }

  /// The row is written before its text is decoded: a stored text that
  /// does not decode, left in place by an update without filters, answers
  /// the internal error yet the new name and stamp are kept.
  lemma UndecodableFiltersStillWritten(t: Tables, claims: Option<string>, id: Id, name: Option<string>,
                                       lastKnown: string, env: Env)
    requires UpdateViewValidation(t, claims, id, name, None, lastKnown, env).Ok?
    requires Decode(t.savedViews[id].filters).None?
    ensures var (r, t1) := UpdateViewOutcome(t, claims, id, name, None, lastKnown, env);
            r == Err(Internal) && id in t1.savedViews && t1.savedViews[id].updatedAt == env.secondStamp &&
            t1.savedViews[id].filters == t.savedViews[id].filters
  {
  }

  /// A stale token is refused before any field is looked at, and nothing
  /// changes.
  lemma StaleViewWriteRefused(t: Tables, claims: Option<string>, id: Id, name: Option<string>,
                              f: Option<Filters>, lastKnown: string, env: Env)
    requires id in t.savedViews && CallerIsMember(t, claims, t.savedViews[id].projectId)
    requires lastKnown != t.savedViews[id].updatedAt
    ensures UpdateViewOutcome(t, claims, id, name, f, lastKnown, env) == (Err(ConflictStaleWrite), t)
  {
  }

  /// An update changes only the view's own row: its project, creator and
  /// creation stamp stay, and an omitted name or filters keep the stored
  /// ones.
  lemma UpdateKeepsOmittedFields(t: Tables, claims: Option<string>, id: Id, name: Option<string>,
                                 f: Option<Filters>, lastKnown: string, env: Env)
    requires UpdateViewValidation(t, claims, id, name, f, lastKnown, env).Ok?
    ensures var t1 := UpdateViewOutcome(t, claims, id, name, f, lastKnown, env).1;
            var (old_, new_) := (t.savedViews[id], t1.savedViews[id]);
            t1 == t.(savedViews := t1.savedViews) && t1.savedViews.Keys == t.savedViews.Keys &&
            (forall k :: k in t.savedViews && k != id ==> t1.savedViews[k] == t.savedViews[k]) &&
            new_.projectId == old_.projectId && new_.createdBy == old_.createdBy &&
            new_.createdAt == old_.createdAt && new_.updatedAt == env.secondStamp &&
            (name.None? ==> new_.name == old_.name) && (f.None? ==> new_.filters == old_.filters)
  {
    UpdateWritesOneRow(t, claims, id, name, f, lastKnown, env);
  }

  /// Deleting a view removes it and exactly the default pointers that
  /// named it; every other pointer stays, so no pointer dangles.
  lemma DeleteLeavesNoDanglingDefault(t: Tables, claims: Option<string>, id: Id)
    requires DefaultViewsSound(t.defaultView, t.savedViews)
    ensures var (r, t1) := DeleteViewOutcome(t, claims, id);
            DefaultViewsSound(t1.defaultView, t1.savedViews) &&
            (r.Ok? ==> r.value && id !in t1.savedViews &&
                       (forall p :: p in t1.defaultView ==> t1.defaultView[p] != id) &&
                       (forall p :: p in t.defaultView && t.defaultView[p] != id ==>
                                      p in t1.defaultView && t1.defaultView[p] == t.defaultView[p])) &&
            (r.Err? ==> t1 == t)
  {
  }

  /// Pointing a project at one of its views makes that view its default;
  /// pointing at no view clears it; a view of another project, or none
  /// at all, is not found and changes nothing.
  lemma SetDefaultMeaning(t: Tables, claims: Option<string>, p: Id, view: Option<Id>)
    requires CallerIsMember(t, claims, p)
    ensures var (r, t1) := SetDefaultOutcome(t, claims, p, view);
            (view.None? ==> r == Ok(true) && p !in t1.defaultView) &&
            (view.Some? ==>
               (r == Ok(true) <==> view.value in t.savedViews && t.savedViews[view.value].projectId == p) &&
               (r.Ok? ==> p in t1.defaultView && t1.defaultView[p] == view.value) &&
               (r.Err? ==> r.error == NotFound && t1 == t)) &&
            (forall q :: q != p && q in t.defaultView ==> q in t1.defaultView && t1.defaultView[q] == t.defaultView[q])
  {
  }

  /// Setting the same default twice is the same as setting it once.
  lemma SetDefaultIdempotent(t: Tables, claims: Option<string>, p: Id, view: Option<Id>)
    ensures var t1 := SetDefaultOutcome(t, claims, p, view).1;
            SetDefaultOutcome(t1, claims, p, view) == SetDefaultOutcome(t, claims, p, view)
  {
    var (r, t1) := SetDefaultOutcome(t, claims, p, view);
    if r.Ok? {
      match view
      case None =>
        assert t1.defaultView - {p} == t1.defaultView;
      case Some(v) =>
        assert t1.defaultView[p := v] == t1.defaultView;
    }
  }

  /// Only a view of the same project can become a default, so pointing
  /// a default keeps every pointer sound.
  lemma SetDefaultKeepsDefaultsSound(t: Tables, claims: Option<string>, p: Id, view: Option<Id>)
    requires DefaultViewsSound(t.defaultView, t.savedViews)
    ensures var t1 := SetDefaultOutcome(t, claims, p, view).1;
            DefaultViewsSound(t1.defaultView, t1.savedViews)
  {
  }
}
