// The tag resolvers (server/src/graphql/takenlijst/tags.rs; the same
// `create_tag` and `delete_tag` also stand alone in create_tag.rs and
// delete_tag.rs). Tags are global; their names are normalised by the
// server-side normaliser and the table holds each name at most once.

module Tags {
  import opened Common
  import opened Db

  /// The row of `SELECT ... FROM tags WHERE name = ?`, if there is one.
  ghost function TagNamed(tags: map<Id, Tag>, name: string): (r: Option<Id>)
    ensures r.Some? ==> r.value in tags && tags[r.value].name == name
    ensures r.None? <==> forall k :: k in tags ==> tags[k].name != name
  {
    if exists k :: k in tags && tags[k].name == name then
      var k :| k in tags && tags[k].name == name; Some(k)
    else None
  }

  /// With unique names the lookup by name finds the one row that has it.
  lemma TagNamedIsUnique(tags: map<Id, Tag>, name: string, k: Id)
    requires TagNamesUnique(tags) && k in tags && tags[k].name == name
    ensures TagNamed(tags, name) == Some(k)
  {
  }

  /// The lookup by name as the resolvers run it.
  method FindTagByName(tags: map<Id, Tag>, name: string) returns (r: Option<Id>)
    requires TagNamesUnique(tags)
    ensures r == TagNamed(tags, name)
  {
    if exists k :: k in tags && tags[k].name == name {
      var k :| k in tags && tags[k].name == name;
      TagNamedIsUnique(tags, name, k);
      return Some(k);
    }
    return None;
  }

  // ---------------------------------------------------------------------
  // create_tag
  // ---------------------------------------------------------------------

  /// What `create_tag` returns and leaves when the next fresh id is
  /// `base`: an existing tag of the normalised name is returned as it is;
  /// otherwise one row is inserted, stamped now.
  ghost function CreateTagOutcome(t: Tables, base: Id, claims: Option<string>, name: string, env: Env)
    : (o: (Result<(Id, Tag)>, Tables))
    ensures o.0.Err? ==> o.1 == t
    ensures o.1.(tags := t.tags) == t
    ensures o.0.Ok? ==> o.0.value.1.name == env.normalizeTagName(name) &&
                        o.0.value.0 in o.1.tags && o.1.tags[o.0.value.0] == o.0.value.1
  {
    var n := env.normalizeTagName(name);
    if claims.None? then (Err(AuthenticationRequired), t)
    else if |n| == 0 then (Err(ValidationFailed), t)
    else
      match TagNamed(t.tags, n)
      case Some(k) => (Ok((k, t.tags[k])), t)
      case None =>
        var row := Tag(n, env.secondStamp, env.secondStamp);
        (Ok((base, row)), t.(tags := t.tags[base := row]))
  }

  method CreateTag(db: Store, claims: Option<string>, name: string, env: Env) returns (r: Result<(Id, Tag)>)
    requires db.Valid()
    modifies db
    ensures db.Valid()
    ensures (r, db.State()) == CreateTagOutcome(old(db.State()), old(db.nextId), claims, name, env)
  {
    if claims.None? {
      return Err(AuthenticationRequired);
    }
    var n := env.normalizeTagName(name);
    if |n| == 0 {
      return Err(ValidationFailed);
    }
    var existing := FindTagByName(db.tags, n);
    if existing.Some? {
      return Ok((existing.value, db.tags[existing.value]));
    }
    var id := db.FreshId();
    var row := Tag(n, env.secondStamp, env.secondStamp);
    db.tags := db.tags[id := row];
    r := Ok((id, row));
  }

  // ---------------------------------------------------------------------
  // rename_tag
  // ---------------------------------------------------------------------

  /// What `rename_tag` returns and leaves: renaming onto the tag's own
  /// name returns it unchanged; onto another tag's name deletes the
  /// renamed tag and returns the other one (task links are not moved);
  /// otherwise the name changes and the update trigger stamps `updated_at`.
  ghost function RenameTagOutcome(t: Tables, claims: Option<string>, id: Id, newName: string, env: Env)
    : (o: (Result<(Id, Tag)>, Tables))
    ensures o.0.Err? ==> o.1 == t
    ensures o.1.(tags := t.tags) == t
    ensures o.0.Ok? ==> o.0.value.1.name == env.normalizeTagName(newName) &&
                        o.0.value.0 in o.1.tags && o.1.tags[o.0.value.0] == o.0.value.1
    ensures (o.0.Ok? && o.0.value.0 == id && id in t.tags && t.tags[id].name != env.normalizeTagName(newName)) ==>
              o.0.value.1 == t.tags[id].(name := env.normalizeTagName(newName), updatedAt := env.tagTouchStamp)
  {
    var n := env.normalizeTagName(newName);
    if claims.None? then (Err(AuthenticationRequired), t)
    else if |n| == 0 then (Err(ValidationFailed), t)
    else if id !in t.tags then (Err(NotFound), t)
    else
      match TagNamed(t.tags, n)
      case Some(k) =>
        if k == id then (Ok((k, t.tags[k])), t)
        else (Ok((k, t.tags[k])), t.(tags := t.tags - {id}))
      case None =>
        var row := t.tags[id].(name := n, updatedAt := env.tagTouchStamp);
        (Ok((id, row)), t.(tags := t.tags[id := row]))
  }

  method RenameTag(db: Store, claims: Option<string>, id: Id, newName: string, env: Env)
    returns (r: Result<(Id, Tag)>)
    requires db.Valid()
    modifies db
    ensures db.Valid()
    ensures (r, db.State()) == RenameTagOutcome(old(db.State()), claims, id, newName, env)
  {
    if claims.None? {
      return Err(AuthenticationRequired);
    }
    var n := env.normalizeTagName(newName);
    if |n| == 0 {
      return Err(ValidationFailed);
    }
    if id !in db.tags {
      return Err(NotFound);
    }
    var collision := FindTagByName(db.tags, n);
    if collision.Some? {
      var k := collision.value;
      var other := db.tags[k];
      if k != id {
        db.tags := db.tags - {id};
      }
      return Ok((k, other));
    }
    var row := db.tags[id].(name := n, updatedAt := env.tagTouchStamp);
    db.tags := db.tags[id := row];
    r := Ok((id, row));
  }

  // ---------------------------------------------------------------------
  // delete_tag
  // ---------------------------------------------------------------------

  /// What `delete_tag` returns and leaves: the row goes, whether or not a
  /// task or series still links to it.
  function DeleteTagOutcome(t: Tables, claims: Option<string>, id: Id): (o: (Result<bool>, Tables))
    ensures o.0.Err? ==> o.1 == t
    ensures o.0.Ok? <==> claims.Some? && id in t.tags
    ensures o.0.Ok? ==> o.1 == t.(tags := t.tags - {id})
  {
    if claims.None? then (Err(AuthenticationRequired), t)
    else if id !in t.tags then (Err(NotFound), t)
    else (Ok(true), t.(tags := t.tags - {id}))
  }

  method DeleteTag(db: Store, claims: Option<string>, id: Id) returns (r: Result<bool>)
    requires db.Valid()
    modifies db
    ensures db.Valid()
    ensures (r, db.State()) == DeleteTagOutcome(old(db.State()), claims, id)
  {
    if claims.None? {
      return Err(AuthenticationRequired);
    }
    if id !in db.tags {
      return Err(NotFound);
    }
    var before := |db.tags|;
    db.tags := db.tags - {id};
    r := Ok(|db.tags| < before);
  }

  // ---------------------------------------------------------------------
  // Properties
  // ---------------------------------------------------------------------

  /// Creating a tag yields a stored tag of the normalised name; asking
  /// again for the same name returns the same tag and changes nothing.
  lemma CreateTagIdempotent(t: Tables, base: Id, base2: Id, claims: Option<string>, name: string, env: Env)
    requires TagNamesUnique(t.tags) && forall k :: k in t.tags ==> k < base
    requires CreateTagOutcome(t, base, claims, name, env).0.Ok?
    ensures var (r, t1) := CreateTagOutcome(t, base, claims, name, env);
            r.value.0 in t1.tags && t1.tags[r.value.0] == r.value.1 &&
            r.value.1.name == env.normalizeTagName(name) &&
            CreateTagOutcome(t1, base2, claims, name, env) == (r, t1)
  {
    var (r, t1) := CreateTagOutcome(t, base, claims, name, env);
    var n := env.normalizeTagName(name);
    assert TagNamesUnique(t1.tags) by {
      if TagNamed(t.tags, n).None? {
        forall a, b | a in t1.tags && b in t1.tags && t1.tags[a].name == t1.tags[b].name
          ensures a == b
        {
        }
      }
    }
    TagNamedIsUnique(t1.tags, n, r.value.0);
  }

  /// Creating inserts a row only when no tag has the name, and then
  /// exactly one; names stay unique.
  lemma CreateTagKeepsNamesUnique(t: Tables, base: Id, claims: Option<string>, name: string, env: Env)
    requires TagNamesUnique(t.tags) && forall k :: k in t.tags ==> k < base
    ensures var t1 := CreateTagOutcome(t, base, claims, name, env).1;
            TagNamesUnique(t1.tags) &&
            (t1 == t || (TagNamed(t.tags, env.normalizeTagName(name)).None? &&
                         base !in t.tags && t1 == t.(tags := t1.tags) &&
                         t1.tags.Keys == t.tags.Keys + {base}))
  {
    var t1 := CreateTagOutcome(t, base, claims, name, env).1;
    if t1 != t {
      forall a, b | a in t1.tags && b in t1.tags && t1.tags[a].name == t1.tags[b].name
        ensures a == b
      {
      }
    }
  }

  /// Renaming onto another tag's name merges: the renamed tag is deleted
  /// and the other is returned as it was. The link tables are left as they
  /// are in the model; what the database's foreign keys do to links of the
  /// deleted tag is not modelled.
  lemma RenameOntoOtherDeletesRenamed(t: Tables, claims: Option<string>, id: Id, other: Id, newName: string, env: Env)
    requires TagNamesUnique(t.tags) && claims.Some? && id in t.tags && other in t.tags && other != id
    requires t.tags[other].name == env.normalizeTagName(newName) && |env.normalizeTagName(newName)| > 0
    ensures RenameTagOutcome(t, claims, id, newName, env) ==
            (Ok((other, t.tags[other])), t.(tags := t.tags - {id}))
  {
    TagNamedIsUnique(t.tags, env.normalizeTagName(newName), other);
  }

  /// Renaming to the tag's own name returns it and changes nothing; a
  /// name no tag has renames the tag in place, the update trigger stamps
  /// its `updated_at`, and nothing else changes.
  lemma RenameWithoutCollision(t: Tables, claims: Option<string>, id: Id, newName: string, env: Env)
    requires TagNamesUnique(t.tags) && claims.Some? && id in t.tags && |env.normalizeTagName(newName)| > 0
    requires forall k :: k in t.tags && k != id ==> t.tags[k].name != env.normalizeTagName(newName)
    ensures t.tags[id].name == env.normalizeTagName(newName) ==>
              RenameTagOutcome(t, claims, id, newName, env) == (Ok((id, t.tags[id])), t)
    ensures var (r, t1) := RenameTagOutcome(t, claims, id, newName, env);
            t.tags[id].name != env.normalizeTagName(newName) ==>
              r.Ok? && r.value.0 == id && t1.tags.Keys == t.tags.Keys &&
              t1.tags[id] == t.tags[id].(name := env.normalizeTagName(newName), updatedAt := env.tagTouchStamp) &&
              r.value.1 == t1.tags[id] &&
              t1 == t.(tags := t1.tags) &&
              (forall k :: k in t.tags && k != id ==> t1.tags[k] == t.tags[k])
  {
    var n := env.normalizeTagName(newName);
    if t.tags[id].name == n {
      TagNamedIsUnique(t.tags, n, id);
    }
  }

  /// Renaming keeps tag names unique.
  lemma RenameTagKeepsNamesUnique(t: Tables, claims: Option<string>, id: Id, newName: string, env: Env)
    requires TagNamesUnique(t.tags)
    ensures TagNamesUnique(RenameTagOutcome(t, claims, id, newName, env).1.tags)
  {
    var n := env.normalizeTagName(newName);
    var after := RenameTagOutcome(t, claims, id, newName, env).1.tags;
    if claims.Some? && |n| > 0 && id in t.tags {
      match TagNamed(t.tags, n)
      case Some(k) =>
        RemovalKeepsUnique(t.tags, id);
        assert after == t.tags || after == t.tags - {id};
      case None =>
        FreeNameRenameKeepsUnique(t.tags, id, n, env.tagTouchStamp);
        assert after == t.tags[id := t.tags[id].(name := n, updatedAt := env.tagTouchStamp)];
    } else {
      assert after == t.tags;
    }
  }

  /// Removing a tag keeps names unique.
  lemma RemovalKeepsUnique(tags: map<Id, Tag>, id: Id)
    requires TagNamesUnique(tags)
    ensures TagNamesUnique(tags - {id})
  {
    assert forall a, b :: a in tags - {id} && b in tags - {id} ==> a in tags && b in tags;
  }

  /// Giving one tag a name no tag has keeps names unique.
  lemma FreeNameRenameKeepsUnique(tags: map<Id, Tag>, id: Id, n: string, stamp: string)
    requires TagNamesUnique(tags) && id in tags
    requires forall k :: k in tags ==> tags[k].name != n
    ensures TagNamesUnique(tags[id := tags[id].(name := n, updatedAt := stamp)])
  {
    var tags1 := tags[id := tags[id].(name := n, updatedAt := stamp)];
    forall a, b | a in tags1 && b in tags1 && tags1[a].name == tags1[b].name
      ensures a == b
    {
      if a != id && b != id {
        assert tags1[a] == tags[a] && tags1[b] == tags[b];
      }
    }
  }

  /// Deleting answers true exactly when the tag existed. The resolver does
  /// not look at links that still name the tag; the model leaves the link
  /// tables as they are, since what the database's foreign keys do to
  /// them is not modelled.
  lemma DeleteTagAnswers(t: Tables, claims: Option<string>, id: Id)
    requires claims.Some?
    ensures var (r, t1) := DeleteTagOutcome(t, claims, id);
            (r == Ok(true) <==> id in t.tags) && (r.Err? ==> r.error == NotFound && t1 == t) &&
            id !in t1.tags && t1.taskTags == t.taskTags && t1.seriesTags == t.seriesTags
  {
  }
}
