// Project access checks (server/src/auth/guard.rs) and the optimistic
// concurrency guard shared by the mutating resolvers. The access checks
// are COUNT queries; the model counts the rows those queries see and
// proves what a positive count means.

module Guard {
  import opened Common
  import opened Db

  /// Rows of `SELECT COUNT(*) FROM projects WHERE id = p AND owner_id = u`.
  function OwnerRowCount(projects: map<Id, Project>, u: Id, p: Id): (n: nat)
    ensures n <= 1
  {
    if p in projects && projects[p].ownerId == u then 1 else 0
  }

  /// Rows of the `projects LEFT JOIN project_members` query of `is_member`
  /// that satisfy `owner_id = u OR pm.user_id = u`. A project without
  /// members joins to one row with a null member.
  function MemberRowCount(projects: map<Id, Project>, members: set<(Id, Id)>, u: Id, p: Id): nat
  {
    if p !in projects then 0
    else
      var joined := set m | m in members && m.0 == p;
      if joined == {} then (if projects[p].ownerId == u then 1 else 0)
      else |set m | m in joined && (projects[p].ownerId == u || m.1 == u)|
  }

  /// `is_owner`: the owner count is positive.
  predicate IsOwner(projects: map<Id, Project>, u: Id, p: Id)
  {
    OwnerRowCount(projects, u, p) > 0
  }

  /// `is_member`: the joined count is positive.
  predicate IsMember(projects: map<Id, Project>, members: set<(Id, Id)>, u: Id, p: Id)
  {
    MemberRowCount(projects, members, u, p) > 0
  }

  /// How `require_owner` and `require_member` turn a check's outcome into a
  /// resolver result: a failing query reads as a missing project.
  function Require(check: Result<bool>): (r: Result<()>)
    ensures r.Ok? <==> check == Ok(true)
    ensures check == Ok(false) ==> r == Err(PermissionDenied)
    ensures check.Err? ==> r == Err(NotFound)
  {
    match check
    case Ok(true) => Ok(())
    case Ok(false) => Err(PermissionDenied)
    case Err(_) => Err(NotFound)
  }

  function RequireOwner(projects: map<Id, Project>, u: Id, p: Id): (r: Result<()>)
    ensures r.Ok? <==> p in projects && projects[p].ownerId == u
    ensures r.Err? ==> r.error == PermissionDenied
  {
    Require(Ok(IsOwner(projects, u, p)))
  }

  function RequireMember(projects: map<Id, Project>, members: set<(Id, Id)>, u: Id, p: Id): (r: Result<()>)
    ensures r.Ok? <==> IsMember(projects, members, u, p)
    ensures r.Err? ==> r.error == PermissionDenied
  {
    Require(Ok(IsMember(projects, members, u, p)))
  }

  /// The optimistic-concurrency guard: the caller's token is stale unless it
  /// is byte-for-byte the stored `updated_at`.
  predicate Stale(stored: string, lastKnown: string)
  {
    stored != lastKnown
  }

  // ---------------------------------------------------------------------
  // Properties
  // ---------------------------------------------------------------------

  /// The join count is positive exactly when the project exists and the
  /// user owns it or has a membership row for it.
  lemma MemberCountMeaning(projects: map<Id, Project>, members: set<(Id, Id)>, u: Id, p: Id)
    ensures IsMember(projects, members, u, p) <==>
              p in projects && (projects[p].ownerId == u || (p, u) in members)
  {
    if p in projects {
      var joined := set m | m in members && m.0 == p;
      var hits := set m | m in joined && (projects[p].ownerId == u || m.1 == u);
      if joined != {} {
        assert MemberRowCount(projects, members, u, p) == |hits|;
        if projects[p].ownerId == u {
          var m :| m in joined;
          assert m in hits;
          assert |hits| > 0;
        } else if (p, u) in members {
          assert (p, u) in hits;
          assert |hits| > 0;
        } else {
          assert forall m :: m in hits ==> m.1 == u && m.0 == p;
          assert hits == {};
        }
      } else {
        assert (p, u) !in members;
      }
    }
  }

  /// Owners are members.
  lemma OwnerIsMember(projects: map<Id, Project>, members: set<(Id, Id)>, u: Id, p: Id)
    requires IsOwner(projects, u, p)
    ensures IsMember(projects, members, u, p)
  {
    MemberCountMeaning(projects, members, u, p);
  }

  /// A user with only a membership row is a member but not an owner; a user
  /// with neither is refused by both checks.
  lemma MembershipRoles(projects: map<Id, Project>, members: set<(Id, Id)>, u: Id, p: Id)
    requires p in projects && projects[p].ownerId != u
    ensures (p, u) in members ==> !IsOwner(projects, u, p) && IsMember(projects, members, u, p)
    ensures (p, u) !in members ==>
              RequireOwner(projects, u, p) == Err(PermissionDenied) &&
              RequireMember(projects, members, u, p) == Err(PermissionDenied)
  {
    MemberCountMeaning(projects, members, u, p);
  }

  /// A project that does not exist counts zero rows, so both checks answer
  /// PERMISSION_DENIED rather than NOT_FOUND.
  lemma MissingProjectIsDenied(projects: map<Id, Project>, members: set<(Id, Id)>, u: Id, p: Id)
    requires p !in projects
    ensures RequireOwner(projects, u, p) == Err(PermissionDenied)
    ensures RequireMember(projects, members, u, p) == Err(PermissionDenied)
  {
  }
}
