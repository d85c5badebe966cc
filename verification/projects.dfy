// The project resolvers (server/src/graphql/takenlijst/projects.rs, with
// the same `create_project`, `archive_project` and
// `add_project_member_by_username` also standing alone in
// create_project.rs, archive_project.rs and
// mutations/add_project_member_by_username.rs). Rename, archive and
// unarchive are owner-only writes behind the optimistic-concurrency guard;
// they stamp `updated_at` with SQLite's `CURRENT_TIMESTAMP`, which has
// one-second precision.

module Projects {
  import opened Common
  import opened Text
  import opened Db
  import opened Guard

  /// Longest project name, in bytes of UTF-8.
  const MaxNameBytes := 60

  /// The name check of `create_project` and `rename_project`: the
  /// normalised name, refused when empty or longer than 60 bytes.
  function CheckedName(name: string, env: Env): (r: Result<string>)
    ensures r.Ok? <==> |env.normalizeProjectName(name)| > 0 &&
                       Utf8Length(env.normalizeProjectName(name)) <= MaxNameBytes
    ensures r.Ok? ==> r.value == env.normalizeProjectName(name)
    ensures r.Err? ==> r.error == ValidationFailed
  {
    var n := env.normalizeProjectName(name);
    if |n| == 0 || Utf8Length(n) > MaxNameBytes then Err(ValidationFailed) else Ok(n)
  }

  // ---------------------------------------------------------------------
  // create_project
  // ---------------------------------------------------------------------

  /// The checks of `create_project`: the login, then the name, then the
  /// caller's row. The result is the caller's id and the stored name.
  function CreateProjectValidation(t: Tables, claims: Option<string>, name: string, env: Env)
    : (r: Result<(Id, string)>)
    ensures claims.None? ==> r == Err(AuthenticationRequired)
    ensures claims.Some? && CheckedName(name, env).Err? ==> r == Err(ValidationFailed)
    ensures r.Ok? ==> claims.Some? && claims.value in t.users && CheckedName(name, env).Ok? &&
                      r.value == (t.users[claims.value], env.normalizeProjectName(name))
  {
    if claims.None? then Err(AuthenticationRequired)
    else
      match CheckedName(name, env)
      case Err(e) => Err(e)
      case Ok(n) =>
        match CallerId(t.users, claims)
        case Err(e) => Err(e)
        case Ok(u) => Ok((u, n))
  }

  /// The inserted row: the columns the INSERT leaves to their defaults
  /// are unarchived and stamped now.
  function NewProject(name: string, owner: Id, stamp: string): Project
  {
    Project(name, owner, None, stamp, stamp)
  }

  /// What `create_project` returns and leaves when the next fresh id is
  /// `base`: the reread row under its new id.
  function CreateProjectOutcome(t: Tables, base: Id, claims: Option<string>, name: string, env: Env)
    : (o: (Result<(Id, Project)>, Tables))
    ensures o.0.Err? ==> o.1 == t
    ensures o.1.(projects := t.projects) == t
    ensures o.0.Ok? ==> o.0.value.0 == base && o.1.projects == t.projects[base := o.0.value.1]
  {
    match CreateProjectValidation(t, claims, name, env)
    case Err(e) => (Err(e), t)
    case Ok((u, n)) =>
      var row := NewProject(n, u, env.secondStamp);
      (Ok((base, row)), t.(projects := t.projects[base := row]))
  }

  method CreateProject(db: Store, claims: Option<string>, name: string, env: Env)
    returns (r: Result<(Id, Project)>)
    requires db.Valid()
    modifies db
    ensures db.Valid()
    ensures (r, db.State()) == CreateProjectOutcome(old(db.State()), old(db.nextId), claims, name, env)
  {
    if claims.None? {
      return Err(AuthenticationRequired);
    }
    var n := CheckedName(name, env);
    if n.Err? {
      return Err(n.error);
    }
    var caller := CallerId(db.users, claims);
    if caller.Err? {
      return Err(caller.error);
    }
    var id := db.FreshId();
    var row := NewProject(n.value, caller.value, env.secondStamp);
    db.projects := db.projects[id := row];
    r := Ok((id, row));
  }

  // ---------------------------------------------------------------------
  // rename_project, archive_project, unarchive_project
  // ---------------------------------------------------------------------

  /// The checks the three owner-only writes share, after the login: the
  /// caller's row, ownership (a missing project counts as not owned), then
  /// the token. The result is the caller's id.
  function OwnerWriteCheck(t: Tables, user: string, p: Id, lastKnown: string): (r: Result<Id>)
    ensures user !in t.users ==> r == Err(QueryFailed)
    ensures user in t.users && !IsOwner(t.projects, t.users[user], p) ==> r == Err(PermissionDenied)
    ensures user in t.users && IsOwner(t.projects, t.users[user], p) && Stale(t.projects[p].updatedAt, lastKnown) ==>
              r == Err(ConflictStaleWrite)
    ensures r.Ok? <==> user in t.users && IsOwner(t.projects, t.users[user], p) &&
                       t.projects[p].updatedAt == lastKnown
    ensures r.Ok? ==> r.value == t.users[user]
  {
    match CallerId(t.users, Some(user))
    case Err(e) => Err(e)
    case Ok(u) =>
      if RequireOwner(t.projects, u, p).Err? then Err(PermissionDenied)
      else if Stale(t.projects[p].updatedAt, lastKnown) then Err(ConflictStaleWrite)
      else Ok(u)
  }

  /// The checks of `rename_project`: the login, the new name, then the
  /// shared owner-write checks. The result is the name to store.
  function RenameValidation(t: Tables, claims: Option<string>, p: Id, name: string, lastKnown: string, env: Env)
    : (r: Result<string>)
    ensures claims.None? ==> r == Err(AuthenticationRequired)
    ensures claims.Some? && CheckedName(name, env).Err? ==> r == Err(ValidationFailed)
    ensures claims.Some? && CheckedName(name, env).Ok? ==>
              (r.Err? <==> OwnerWriteCheck(t, claims.value, p, lastKnown).Err?)
    ensures r.Err? && claims.Some? && CheckedName(name, env).Ok? ==>
              r.error == OwnerWriteCheck(t, claims.value, p, lastKnown).error
    ensures r.Ok? ==> r.value == env.normalizeProjectName(name) && p in t.projects
  {
    if claims.None? then Err(AuthenticationRequired)
    else
      match CheckedName(name, env)
      case Err(e) => Err(e)
      case Ok(n) =>
        match OwnerWriteCheck(t, claims.value, p, lastKnown)
        case Err(e) => Err(e)
        case Ok(_) => Ok(n)
  }

  /// The checks of `archive_project` and `unarchive_project`.
  function ArchiveValidation(t: Tables, claims: Option<string>, p: Id, lastKnown: string): (r: Result<Id>)
    ensures claims.None? ==> r == Err(AuthenticationRequired)
    ensures claims.Some? ==> r == OwnerWriteCheck(t, claims.value, p, lastKnown)
  {
    if claims.None? then Err(AuthenticationRequired) else OwnerWriteCheck(t, claims.value, p, lastKnown)
  }

  /// The tables after one UPDATE of a project row.
  function WithProject(t: Tables, p: Id, row: Project): Tables
  {
    t.(projects := t.projects[p := row])
  }

  /// The UPDATE of `rename_project`: the name and the stamp.
  function RenamedRow(row: Project, name: string, stamp: string): Project
  {
    row.(name := name, updatedAt := stamp)
  }

  /// The UPDATE of `archive_project` (`archived` true) or
  /// `unarchive_project`: the archive stamp is set or cleared whatever it
  /// was, and `updated_at` is stamped.
  function ArchivedRow(row: Project, archived: bool, stamp: string): Project
  {
    row.(archivedAt := if archived then Some(stamp) else None, updatedAt := stamp)
  }

  function RenameOutcome(t: Tables, claims: Option<string>, p: Id, name: string, lastKnown: string, env: Env)
    : (o: (Result<Project>, Tables))
    ensures o.0.Err? ==> o.1 == t
    ensures o.0.Ok? ==> p in t.projects && o.1 == WithProject(t, p, o.0.value)
  {
    match RenameValidation(t, claims, p, name, lastKnown, env)
    case Err(e) => (Err(e), t)
    case Ok(n) =>
      var row := RenamedRow(t.projects[p], n, env.secondStamp);
      (Ok(row), WithProject(t, p, row))
  }

  function ArchiveOutcome(t: Tables, claims: Option<string>, p: Id, lastKnown: string, archived: bool, stamp: string)
    : (o: (Result<Project>, Tables))
    ensures o.0.Err? ==> o.1 == t
    ensures o.0.Ok? ==> p in t.projects && o.1 == WithProject(t, p, o.0.value)
  {
    match ArchiveValidation(t, claims, p, lastKnown)
    case Err(e) => (Err(e), t)
    case Ok(_) =>
      var row := ArchivedRow(t.projects[p], archived, stamp);
      (Ok(row), WithProject(t, p, row))
  }

  /// The statement form of `OwnerWriteCheck`, proved equal to it: the resolver runs
  /// these statements, and proving them here on their own keeps the
  /// resolver's proof small.
  method CheckOwnerWrite(t: Tables, user: string, p: Id, lastKnown: string) returns (r: Result<Id>)
    ensures r == OwnerWriteCheck(t, user, p, lastKnown)
  {
    var caller := CallerId(t.users, Some(user));
    if caller.Err? {
      return Err(caller.error);
    }
    if RequireOwner(t.projects, caller.value, p).Err? {
      return Err(PermissionDenied);
    }
    if Stale(t.projects[p].updatedAt, lastKnown) {
      return Err(ConflictStaleWrite);
    }
    return Ok(caller.value);
  }

  /// Writes one project row back and returns it, as the reread does.
  method StoreProject(db: Store, p: Id, row: Project) returns (r: Result<Project>)
    requires db.Valid() && p in db.projects
    modifies db
    ensures db.Valid() && db.nextId == old(db.nextId)
    ensures r == Ok(row) && db.State() == WithProject(old(db.State()), p, row)
  {
    db.projects := db.projects[p := row];
    r := Ok(row);
  }

  method RenameProject(db: Store, claims: Option<string>, p: Id, name: string, lastKnown: string, env: Env)
    returns (r: Result<Project>)
    requires db.Valid()
    modifies db
    ensures db.Valid()
    ensures (r, db.State()) == RenameOutcome(old(db.State()), claims, p, name, lastKnown, env)
  {
    if claims.None? {
      return Err(AuthenticationRequired);
    }
    var n := CheckedName(name, env);
    if n.Err? {
      return Err(n.error);
    }
    var check := CheckOwnerWrite(db.State(), claims.value, p, lastKnown);
    if check.Err? {
      return Err(check.error);
    }
    r := StoreProject(db, p, RenamedRow(db.projects[p], n.value, env.secondStamp));
  }

  /// `archive_project` (`archived` true) and `unarchive_project`.
  method SetArchived(db: Store, claims: Option<string>, p: Id, lastKnown: string, archived: bool, env: Env)
    returns (r: Result<Project>)
    requires db.Valid()
    modifies db
    ensures db.Valid()
    ensures (r, db.State()) == ArchiveOutcome(old(db.State()), claims, p, lastKnown, archived, env.secondStamp)
  {
    if claims.None? {
      return Err(AuthenticationRequired);
    }
    var check := CheckOwnerWrite(db.State(), claims.value, p, lastKnown);
    if check.Err? {
      return Err(check.error);
    }
    r := StoreProject(db, p, ArchivedRow(db.projects[p], archived, env.secondStamp));
  }

  // ---------------------------------------------------------------------
  // add_project_member_by_username
  // ---------------------------------------------------------------------

  /// The logged-in caller owns project `p`.
  predicate CallerOwns(t: Tables, claims: Option<string>, p: Id)
  {
    claims.Some? && claims.value in t.users && IsOwner(t.projects, t.users[claims.value], p)
  }

  /// The checks of `add_project_member_by_username`. The result is the id
  /// of the user to add, looked up by the lower-cased name.
  function AddMemberValidation(t: Tables, claims: Option<string>, p: Id, username: string): (r: Result<Id>)
    ensures claims.None? ==> r == Err(AuthenticationRequired)
    ensures claims.Some? && claims.value !in t.users ==> r == Err(QueryFailed)
    ensures KnownCaller(t, claims) && !CallerOwns(t, claims, p) ==> r == Err(PermissionDenied)
    ensures r.Ok? <==> CallerOwns(t, claims, p) && AsciiLower(username) in t.users &&
                       (p, t.users[AsciiLower(username)]) !in t.members &&
                       t.projects[p].ownerId != t.users[AsciiLower(username)]
    ensures r.Ok? ==> CallerOwns(t, claims, p)
    ensures r.Ok? ==> AsciiLower(username) in t.users && r.value == t.users[AsciiLower(username)]
    ensures r.Ok? ==> (p, r.value) !in t.members && t.projects[p].ownerId != r.value
    ensures CallerOwns(t, claims, p) && AsciiLower(username) !in t.users ==> r == Err(NotFound)
    ensures CallerOwns(t, claims, p) && AsciiLower(username) in t.users ==>
              var target := t.users[AsciiLower(username)];
              ((p, target) in t.members || t.projects[p].ownerId == target ==> r == Err(ValidationFailed))
  {
    if claims.None? then Err(AuthenticationRequired)
    else
      match CallerId(t.users, claims)
      case Err(e) => Err(e)
      case Ok(u) =>
        if RequireOwner(t.projects, u, p).Err? then Err(PermissionDenied)
        else
          var name := AsciiLower(username);
          if name !in t.users then Err(NotFound)
          else
            var target := t.users[name];
            if (p, target) in t.members || t.projects[p].ownerId == target then Err(ValidationFailed)
            else Ok(target)
  }

  function AddMemberOutcome(t: Tables, claims: Option<string>, p: Id, username: string)
    : (o: (Result<bool>, Tables))
    ensures o.0.Err? ==> o.1 == t
    ensures o.1.(members := t.members) == t
    ensures o.0.Ok? ==> t.members < o.1.members && |o.1.members - t.members| == 1
  {
    match AddMemberValidation(t, claims, p, username)
    case Err(e) => (Err(e), t)
    case Ok(target) => (Ok(true), t.(members := t.members + {(p, target)}))
  }

  method AddProjectMemberByUsername(db: Store, claims: Option<string>, p: Id, username: string)
    returns (r: Result<bool>)
    requires db.Valid()
    modifies db
    ensures db.Valid()
    ensures (r, db.State()) == AddMemberOutcome(old(db.State()), claims, p, username)
  {
    if claims.None? {
      return Err(AuthenticationRequired);
    }
    var caller := CallerId(db.users, claims);
    if caller.Err? {
      return Err(caller.error);
    }
    if RequireOwner(db.projects, caller.value, p).Err? {
      return Err(PermissionDenied);
    }
    var owner := db.projects[p].ownerId;
    var name := AsciiLower(username);
    if name !in db.users {
      return Err(NotFound);
    }
    var target := db.users[name];
    if (p, target) in db.members || owner == target {
      return Err(ValidationFailed);
    }
    db.members := db.members + {(p, target)};
    r := Ok(true);
  }

  // ---------------------------------------------------------------------
  // Properties
  // ---------------------------------------------------------------------

  /// A created project is new, carries the normalised name and is owned
  /// by the caller, who is then its owner and member; nothing else
  /// changes.
  lemma CreatedProjectIsOwned(t: Tables, base: Id, claims: Option<string>, name: string, env: Env)
    requires forall k :: k in t.projects ==> k < base
    requires CreateProjectOutcome(t, base, claims, name, env).0.Ok?
    ensures var (r, t1) := CreateProjectOutcome(t, base, claims, name, env);
            var u := t.users[claims.value];
            base !in t.projects && r.value.0 == base &&
            t1.projects == t.projects[base := r.value.1] &&
            r.value.1.name == env.normalizeProjectName(name) && r.value.1.archivedAt.None? &&
            IsOwner(t1.projects, u, base) && IsMember(t1.projects, t1.members, u, base) &&
            t1 == t.(projects := t1.projects)
  {
    var u := t.users[claims.value];
    var t1 := CreateProjectOutcome(t, base, claims, name, env).1;
    OwnerIsMember(t1.projects, t1.members, u, base);
  }

  /// A stale token is refused with CONFLICT_STALE_WRITE, by all three
  /// owner-only writes, once the caller owns the project, and nothing
  /// changes.
  lemma StaleProjectWriteRefused(t: Tables, claims: Option<string>, p: Id, name: string, lastKnown: string, env: Env)
    requires CallerOwns(t, claims, p)
    requires Stale(t.projects[p].updatedAt, lastKnown)
    ensures CheckedName(name, env).Ok? ==> RenameOutcome(t, claims, p, name, lastKnown, env) == (Err(ConflictStaleWrite), t)
    ensures forall archived: bool :: ArchiveOutcome(t, claims, p, lastKnown, archived, env.secondStamp) ==
                                     (Err(ConflictStaleWrite), t)
  {
  }

  /// A successful rename changes the project's name and `updated_at` and
  /// nothing else, and answers with the row as stored.
  lemma RenameChangesOnlyName(t: Tables, claims: Option<string>, p: Id, name: string, lastKnown: string, env: Env)
    requires RenameOutcome(t, claims, p, name, lastKnown, env).0.Ok?
    ensures var (r, t1) := RenameOutcome(t, claims, p, name, lastKnown, env);
            p in t.projects && t1 == t.(projects := t.projects[p := r.value]) &&
            r.value.name == env.normalizeProjectName(name) && r.value.updatedAt == env.secondStamp &&
            r.value.ownerId == t.projects[p].ownerId && r.value.archivedAt == t.projects[p].archivedAt &&
            r.value.createdAt == t.projects[p].createdAt
  {
  }

  /// Archiving does not look at the archive stamp: an owner with the
  /// current token archives an archived project again, re-stamping it;
  /// unarchiving clears the stamp and keeps the rest of the row.
  lemma ArchiveIgnoresCurrentState(t: Tables, claims: Option<string>, p: Id, archived: bool, stamp: string)
    requires CallerOwns(t, claims, p)
    ensures var (r, t1) := ArchiveOutcome(t, claims, p, t.projects[p].updatedAt, archived, stamp);
            r.Ok? && t1.projects[p].archivedAt == (if archived then Some(stamp) else None) &&
            t1.projects[p].updatedAt == stamp &&
            t1.projects[p].(archivedAt := t.projects[p].archivedAt, updatedAt := t.projects[p].updatedAt) ==
              t.projects[p]
  {
  }

  /// With second-precision stamps, a write in the same second as the
  /// previous one leaves `updated_at` as it was: a client holding the
  /// token from before this write still passes the stale check.
  lemma SameSecondWriteKeepsToken(t: Tables, claims: Option<string>, p: Id, lastKnown: string, archived: bool,
                                  stamp: string)
    requires ArchiveOutcome(t, claims, p, lastKnown, archived, stamp).0.Ok?
    requires t.projects[p].updatedAt == stamp
    ensures var t1 := ArchiveOutcome(t, claims, p, lastKnown, archived, stamp).1;
            !Stale(t1.projects[p].updatedAt, lastKnown) &&
            ArchiveOutcome(t1, claims, p, lastKnown, !archived, stamp).0.Ok?
  {
    var t1 := ArchiveOutcome(t, claims, p, lastKnown, archived, stamp).1;
    assert t1.projects[p].ownerId == t.projects[p].ownerId;
  }

  /// Adding a member inserts exactly one membership row, for a user who
  /// was neither owner nor member and is a member afterwards; adding the
  /// same name again is refused.
  lemma AddedMemberJoins(t: Tables, claims: Option<string>, p: Id, username: string)
    requires AddMemberOutcome(t, claims, p, username).0.Ok?
    ensures var t1 := AddMemberOutcome(t, claims, p, username).1;
            var target := t.users[AsciiLower(username)];
            t1 == t.(members := t.members + {(p, target)}) && |t1.members| == |t.members| + 1 &&
            !IsMember(t.projects, t.members, target, p) &&
            IsMember(t1.projects, t1.members, target, p) && !IsOwner(t1.projects, target, p) &&
            AddMemberOutcome(t1, claims, p, username) == (Err(ValidationFailed), t1)
  {
    var t1 := AddMemberOutcome(t, claims, p, username).1;
    var target := t.users[AsciiLower(username)];
    MemberCountMeaning(t.projects, t.members, target, p);
    MemberCountMeaning(t1.projects, t1.members, target, p);
  }
}
