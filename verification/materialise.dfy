// Turning an occurrence stream into `todo` task rows. Three resolvers do
// this: series creation and regeneration seed up to five tasks from the
// occurrences not before now (create_recurring_series.rs:254-304,
// update_recurring_series.rs:404-457), and the top-up fills a shortfall
// while skipping (date, time) slots some task already occupies
// (series_topup.rs:152-204). The admission rules are specification
// functions; the loops that insert the rows are methods proved against them.

module Materialise {
  import opened Common
  import opened Clock
  import opened Classifier
  import opened Db

  /// What every generated task of a series copies.
  datatype Template = Template(
    projectId: Id,
    authorId: Id,
    assigneeId: Option<Id>,
    seriesId: Id,
    title: string,
    description: Option<string>,
    time: Option<I32>,
    offset: I32)

  /// A (scheduled_date, scheduled_time_minutes) slot.
  type Key = (DateText, Option<I32>)

  /// The row generated for occurrence `occ`: scheduled on the occurrence's
  /// local date at the series' start time, due `offset` minutes after the
  /// occurrence, with a due time only when the series has a start time.
  function GeneratedTask(tmpl: Template, z: Zone, occ: Instant, stamp: string): Task
  {
    var due := occ + tmpl.offset * SecondsPerMinute;
    Task(tmpl.projectId, tmpl.authorId, tmpl.assigneeId, Some(tmpl.seriesId),
         tmpl.title, tmpl.description, Todo,
         Some(Iso(z.localDay(occ))), tmpl.time,
         Some(Iso(z.localDay(due))),
         if tmpl.time.Some? then Some(z.localMinute(due) as I32) else None,
         None, None, None, None, stamp, stamp)
  }

  function SlotKey(z: Zone, occ: Instant, time: Option<I32>): Key
  {
    (Iso(z.localDay(occ)), time)
  }

  function SlotKeys(z: Zone, slots: seq<Instant>, time: Option<I32>): set<Key>
  {
    set o | o in slots :: SlotKey(z, o, time)
  }

  /// The rows a run inserts, keyed by the ids it draws in order from `base`.
  function NewRows(base: Id, tmpl: Template, z: Zone, slots: seq<Instant>, stamp: string): map<Id, Task>
  {
    map i: Id | base <= i < base + |slots| :: RowAt(base, tmpl, z, slots, stamp, i)
  }

  /// The row that id `i` of a run starting at `base` receives.
  function RowAt(base: Id, tmpl: Template, z: Zone, slots: seq<Instant>, stamp: string, i: Id): Task
    requires base <= i < base + |slots|
  {
    GeneratedTask(tmpl, z, slots[i - base], stamp)
  }

  /// The tag links a run inserts: every new task gets every default tag.
  function NewLinks(base: Id, n: nat, tags: set<Id>): set<(Id, Id)>
  {
    set i: Id, g | base <= i < base + n && g in tags :: (i, g)
  }

  // ---------------------------------------------------------------------
  // Admission rules
  // ---------------------------------------------------------------------

  /// Seeding: walk the occurrences, skip those before now, stop after `cap`.
  function Seeded(occs: seq<Instant>, now: Instant, cap: nat): seq<Instant>
  {
    if |occs| == 0 || cap == 0 then []
    else if occs[0] < now then Seeded(occs[1..], now, cap)
    else [occs[0]] + Seeded(occs[1..], now, cap - 1)
  }

  /// Top-up: as seeding, but also skip an occurrence whose slot is taken,
  /// and take each admitted slot.
  function Filled(occs: seq<Instant>, now: Instant, z: Zone, time: Option<I32>,
                  taken: set<Key>, needed: nat): seq<Instant>
  {
    if |occs| == 0 || needed == 0 then []
    else if occs[0] < now || SlotKey(z, occs[0], time) in taken then
      Filled(occs[1..], now, z, time, taken, needed)
    else
      [occs[0]] + Filled(occs[1..], now, z, time, taken + {SlotKey(z, occs[0], time)}, needed - 1)
  }

  /// Reference definitions: the occurrences not before now, and a prefix.
  function Future(occs: seq<Instant>, now: Instant): seq<Instant>
  {
    if |occs| == 0 then []
    else if occs[0] < now then Future(occs[1..], now)
    else [occs[0]] + Future(occs[1..], now)
  }

  function Take(s: seq<Instant>, n: nat): seq<Instant>
  {
    if |s| <= n then s else s[..n]
  }

  // ---------------------------------------------------------------------
  // Properties of the admission rules
  // ---------------------------------------------------------------------

  /// Seeding yields exactly the first `cap` occurrences not before now.
  lemma {:induction false} SeededIsFirstFuture(occs: seq<Instant>, now: Instant, cap: nat)
    ensures Seeded(occs, now, cap) == Take(Future(occs, now), cap)
  {
    if |occs| > 0 && cap > 0 {
      SeededIsFirstFuture(occs[1..], now, if occs[0] < now then cap else cap - 1);
    }
  }

  /// Seeding yields at most `cap` occurrences, each from the stream and not
  /// before now, in stream order.
  lemma {:induction false} SeededBounds(occs: seq<Instant>, now: Instant, cap: nat)
    ensures |Seeded(occs, now, cap)| <= cap
    ensures forall o :: o in Seeded(occs, now, cap) ==> o in occs && o >= now
    ensures Ascending(occs) ==> Ascending(Seeded(occs, now, cap))
  {
    if |occs| > 0 && cap > 0 {
      var c := if occs[0] < now then cap else cap - 1;
      SeededBounds(occs[1..], now, c);
      if Ascending(occs) {
        assert Ascending(occs[1..]);
      }
    }
  }

  /// Strictly increasing.
  ghost predicate Ascending(s: seq<Instant>)
  {
    forall i, j :: 0 <= i < j < |s| ==> s[i] < s[j]
  }

  /// The top-up yields at most `needed` occurrences, each from the stream
  /// and not before now.
  lemma {:induction false} FilledBounds(occs: seq<Instant>, now: Instant, z: Zone, time: Option<I32>,
                                        taken: set<Key>, needed: nat)
    ensures |Filled(occs, now, z, time, taken, needed)| <= needed
    ensures forall o :: o in Filled(occs, now, z, time, taken, needed) ==> o in occs && o >= now
  {
    if |occs| > 0 && needed > 0 {
      if occs[0] < now || SlotKey(z, occs[0], time) in taken {
        FilledBounds(occs[1..], now, z, time, taken, needed);
      } else {
        FilledBounds(occs[1..], now, z, time, taken + {SlotKey(z, occs[0], time)}, needed - 1);
      }
    }
  }

  /// No slot of `f` is in `taken`, and no two occurrences of `f` share a slot.
  predicate FreshSlots(z: Zone, f: seq<Instant>, time: Option<I32>, taken: set<Key>)
  {
    (forall i :: 0 <= i < |f| ==> SlotKey(z, f[i], time) !in taken) &&
    (forall i, j :: 0 <= i < j < |f| ==> SlotKey(z, f[i], time) != SlotKey(z, f[j], time))
  }

  /// No admitted slot was taken before, and no two admitted occurrences
  /// share a slot.
  lemma {:induction false} FilledSlotsFresh(occs: seq<Instant>, now: Instant, z: Zone, time: Option<I32>,
                                            taken: set<Key>, needed: nat)
    ensures FreshSlots(z, Filled(occs, now, z, time, taken, needed), time, taken)
  {
    if |occs| > 0 && needed > 0 {
      var f := Filled(occs, now, z, time, taken, needed);
      if occs[0] < now || SlotKey(z, occs[0], time) in taken {
        assert f == Filled(occs[1..], now, z, time, taken, needed);
        FilledSlotsFresh(occs[1..], now, z, time, taken, needed);
      } else {
        var k := SlotKey(z, occs[0], time);
        var rest := Filled(occs[1..], now, z, time, taken + {k}, needed - 1);
        assert f == [occs[0]] + rest;
        FilledSlotsFresh(occs[1..], now, z, time, taken + {k}, needed - 1);
        forall i | 0 <= i < |f|
          ensures SlotKey(z, f[i], time) !in taken
        {
          if i > 0 {
            assert f[i] == rest[i - 1];
            assert SlotKey(z, rest[i - 1], time) !in taken + {k};
          }
        }
        forall i, j | 0 <= i < j < |f|
          ensures SlotKey(z, f[i], time) != SlotKey(z, f[j], time)
        {
          assert f[j] == rest[j - 1];
          assert SlotKey(z, rest[j - 1], time) !in taken + {k};
          if i > 0 {
            assert f[i] == rest[i - 1];
          }
        }
      }
    }
  }

  /// When the top-up falls short, every occurrence not before now had its
  /// slot taken already or admitted by this run.
  lemma {:induction false} FilledShortfallCoversStream(occs: seq<Instant>, now: Instant, z: Zone,
                                                       time: Option<I32>, taken: set<Key>, needed: nat)
    requires |Filled(occs, now, z, time, taken, needed)| < needed
    ensures forall o :: o in occs && o >= now ==>
              SlotKey(z, o, time) in taken + SlotKeys(z, Filled(occs, now, z, time, taken, needed), time)
  {
    if |occs| > 0 {
      var f := Filled(occs, now, z, time, taken, needed);
      if occs[0] < now || SlotKey(z, occs[0], time) in taken {
        FilledShortfallCoversStream(occs[1..], now, z, time, taken, needed);
        assert forall o :: o in occs ==> o == occs[0] || o in occs[1..];
      } else {
        var k := SlotKey(z, occs[0], time);
        var rest := Filled(occs[1..], now, z, time, taken + {k}, needed - 1);
        FilledShortfallCoversStream(occs[1..], now, z, time, taken + {k}, needed - 1);
        assert f == [occs[0]] + rest;
        assert SlotKeys(z, f, time) == {k} + SlotKeys(z, rest, time);
        assert forall o :: o in occs ==> o == occs[0] || o in occs[1..];
      }
    }
  }

  /// With every slot of the stream not before now already taken, the
  /// top-up admits nothing.
  lemma {:induction false} FilledNothingWhenCovered(occs: seq<Instant>, now: Instant, z: Zone,
                                                    time: Option<I32>, taken: set<Key>, needed: nat)
    requires forall o :: o in occs && o >= now ==> SlotKey(z, o, time) in taken
    ensures Filled(occs, now, z, time, taken, needed) == []
  {
    if |occs| > 0 && needed > 0 {
      assert occs[0] in occs;
      FilledNothingWhenCovered(occs[1..], now, z, time, taken, needed);
    }
  }

  // ---------------------------------------------------------------------
  // Inserting rows
  // ---------------------------------------------------------------------

  /// The tables after one task row and its tag links are inserted.
  function WithTask(t: Tables, id: Id, task: Task, tags: set<Id>): Tables
  {
    t.(tasks := t.tasks[id := task], taskTags := t.taskTags + (set g | g in tags :: (id, g)))
  }

  /// The tables after a run generated rows for `slots` with ids from `base`.
  function AfterRun(t: Tables, base: Id, tmpl: Template, z: Zone, slots: seq<Instant>,
                    tags: set<Id>, stamp: string): Tables
  {
    t.(tasks := t.tasks + NewRows(base, tmpl, z, slots, stamp),
       taskTags := t.taskTags + NewLinks(base, |slots|, tags))
  }

  /// A run only adds: every other table is untouched and every existing
  /// task row and tag link stays.
  lemma AfterRunOnlyAdds(t: Tables, base: Id, tmpl: Template, z: Zone, slots: seq<Instant>,
                         tags: set<Id>, stamp: string)
    requires forall k :: k in t.tasks ==> k < base
    ensures var t1 := AfterRun(t, base, tmpl, z, slots, tags, stamp);
            t1.(tasks := t.tasks, taskTags := t.taskTags) == t &&
            (forall k :: k in t.tasks ==> k in t1.tasks && t1.tasks[k] == t.tasks[k]) &&
            t.taskTags <= t1.taskTags
  {
    var rows := NewRows(base, tmpl, z, slots, stamp);
    assert forall k :: k in t.tasks ==> k !in rows;
  }

  /// One task INSERT followed by `INSERT OR IGNORE` of its tag links.
  method InsertTask(db: Store, t: Task, tags: set<Id>) returns (id: Id)
    requires db.Valid()
    modifies db
    ensures db.Valid()
    ensures id == old(db.nextId) && db.nextId == id + 1 && id !in old(db.tasks)
    ensures db.State() == WithTask(old(db.State()), id, t, tags)
  {
    id := db.FreshId();
    db.tasks := db.tasks[id := t];
    db.taskTags := db.taskTags + (set g | g in tags :: (id, g));
  }

  lemma NewRowsExtend(base: Id, tmpl: Template, z: Zone, slots: seq<Instant>, o: Instant, stamp: string)
    ensures NewRows(base, tmpl, z, slots + [o], stamp) ==
            NewRows(base, tmpl, z, slots, stamp)[base + |slots| := GeneratedTask(tmpl, z, o, stamp)]
  {
    assert forall i: Id | base <= i < base + |slots| ::
      RowAt(base, tmpl, z, slots + [o], stamp, i) == RowAt(base, tmpl, z, slots, stamp, i);
  }

  /// Inserting the row of one more slot extends a run by that slot.
  lemma AfterRunExtend(t: Tables, base: Id, tmpl: Template, z: Zone, slots: seq<Instant>,
                       o: Instant, tags: set<Id>, stamp: string)
    ensures WithTask(AfterRun(t, base, tmpl, z, slots, tags, stamp), base + |slots|,
                     GeneratedTask(tmpl, z, o, stamp), tags) ==
            AfterRun(t, base, tmpl, z, slots + [o], tags, stamp)
  {
    var k := base + |slots|;
    var v := GeneratedTask(tmpl, z, o, stamp);
    NewRowsExtend(base, tmpl, z, slots, o, stamp);
    var rows := NewRows(base, tmpl, z, slots, stamp);
    assert (t.tasks + rows)[k := v] == t.tasks + rows[k := v];
    assert NewLinks(base, |slots| + 1, tags) ==
           NewLinks(base, |slots|, tags) + (set g | g in tags :: (k, g));
  }

  /// A run that generated nothing leaves the tables as they were.
  lemma AfterRunEmpty(t: Tables, base: Id, tmpl: Template, z: Zone, tags: set<Id>, stamp: string)
    ensures AfterRun(t, base, tmpl, z, [], tags, stamp) == t
  {
    assert NewRows(base, tmpl, z, [], stamp) == map[];
    assert t.tasks + map[] == t.tasks;
    assert NewLinks(base, 0, tags) == {};
  }

  /// Inserts the row of one more slot of a run.
  method InsertSlot(db: Store, ghost s0: Tables, base: Id, tmpl: Template, z: Zone,
                    ghost slots: seq<Instant>, occ: Instant, tags: set<Id>, stamp: string)
    requires db.Valid()
    requires db.nextId == base + |slots|
    requires db.State() == AfterRun(s0, base, tmpl, z, slots, tags, stamp)
    modifies db
    ensures db.Valid()
    ensures db.nextId == base + |slots| + 1
    ensures db.State() == AfterRun(s0, base, tmpl, z, slots + [occ], tags, stamp)
  {
    var id := InsertTask(db, GeneratedTask(tmpl, z, occ, stamp), tags);
    AfterRunExtend(s0, base, tmpl, z, slots, occ, tags, stamp);
  }

  /// Loop progress: `slots` followed by what seeding admits from position
  /// `i` on is what seeding admits from the whole stream.
  ghost predicate SeedProgress(occs: seq<Instant>, i: nat, now: Instant, cap: nat, slots: seq<Instant>)
  {
    i <= |occs| && |slots| <= cap && slots + Seeded(occs[i..], now, cap - |slots|) == Seeded(occs, now, cap)
  }

  lemma SeedStep(occs: seq<Instant>, i: nat, now: Instant, cap: nat, slots: seq<Instant>)
    requires SeedProgress(occs, i, now, cap, slots) && i < |occs| && |slots| < cap
    ensures occs[i] < now ==> SeedProgress(occs, i + 1, now, cap, slots)
    ensures occs[i] >= now ==> SeedProgress(occs, i + 1, now, cap, slots + [occs[i]])
  {
    assert occs[i..][1..] == occs[i + 1..];
    var c := cap - |slots|;
    if occs[i] >= now {
      assert Seeded(occs[i..], now, c) == [occs[i]] + Seeded(occs[i + 1..], now, c - 1);
      assert slots + ([occs[i]] + Seeded(occs[i + 1..], now, c - 1)) ==
             (slots + [occs[i]]) + Seeded(occs[i + 1..], now, c - 1);
    }
  }

  lemma SeedDone(occs: seq<Instant>, i: nat, now: Instant, cap: nat, slots: seq<Instant>)
    requires SeedProgress(occs, i, now, cap, slots) && (i == |occs| || |slots| == cap)
    ensures slots == Seeded(occs, now, cap)
  {
    assert Seeded(occs[i..], now, cap - |slots|) == [];
    assert slots + [] == slots;
  }

  /// The same for the top-up, whose admission also depends on the slots
  /// taken so far.
  ghost predicate FillProgress(occs: seq<Instant>, i: nat, now: Instant, z: Zone, time: Option<I32>,
                               taken: set<Key>, needed: nat, slots: seq<Instant>)
  {
    i <= |occs| && |slots| <= needed &&
    slots + Filled(occs[i..], now, z, time, taken + SlotKeys(z, slots, time), needed - |slots|) ==
    Filled(occs, now, z, time, taken, needed)
  }

  lemma FillStep(occs: seq<Instant>, i: nat, now: Instant, z: Zone, time: Option<I32>,
                 taken: set<Key>, needed: nat, slots: seq<Instant>)
    requires FillProgress(occs, i, now, z, time, taken, needed, slots) && i < |occs| && |slots| < needed
    ensures occs[i] < now || SlotKey(z, occs[i], time) in taken + SlotKeys(z, slots, time) ==>
              FillProgress(occs, i + 1, now, z, time, taken, needed, slots)
    ensures !(occs[i] < now || SlotKey(z, occs[i], time) in taken + SlotKeys(z, slots, time)) ==>
              FillProgress(occs, i + 1, now, z, time, taken, needed, slots + [occs[i]])
  {
    assert occs[i..][1..] == occs[i + 1..];
    var keys := taken + SlotKeys(z, slots, time);
    var k := SlotKey(z, occs[i], time);
    var c := needed - |slots|;
    if !(occs[i] < now || k in keys) {
      assert SlotKeys(z, slots + [occs[i]], time) == SlotKeys(z, slots, time) + {k};
      assert taken + SlotKeys(z, slots + [occs[i]], time) == keys + {k};
      assert Filled(occs[i..], now, z, time, keys, c) ==
             [occs[i]] + Filled(occs[i + 1..], now, z, time, keys + {k}, c - 1);
      assert slots + ([occs[i]] + Filled(occs[i + 1..], now, z, time, keys + {k}, c - 1)) ==
             (slots + [occs[i]]) + Filled(occs[i + 1..], now, z, time, keys + {k}, c - 1);
    }
  }

  lemma FillDone(occs: seq<Instant>, i: nat, now: Instant, z: Zone, time: Option<I32>,
                 taken: set<Key>, needed: nat, slots: seq<Instant>)
    requires FillProgress(occs, i, now, z, time, taken, needed, slots) && (i == |occs| || |slots| == needed)
    ensures slots == Filled(occs, now, z, time, taken, needed)
  {
    assert Filled(occs[i..], now, z, time, taken + SlotKeys(z, slots, time), needed - |slots|) == [];
    assert slots + [] == slots;
  }

  /// The seeding loop of series creation and regeneration.
  method SeedTasks(db: Store, tmpl: Template, z: Zone, tags: set<Id>, occs: seq<Instant>,
                   now: Instant, cap: nat, stamp: string)
    requires db.Valid()
    modifies db
    ensures db.Valid()
    ensures db.nextId == old(db.nextId) + |Seeded(occs, now, cap)|
    ensures db.State() == AfterRun(old(db.State()), old(db.nextId), tmpl, z,
                                   Seeded(occs, now, cap), tags, stamp)
  {
    var base := db.nextId;
    ghost var s0 := db.State();
    ghost var slots: seq<Instant> := [];
    var created := 0;
    var i := 0;
    AfterRunEmpty(s0, base, tmpl, z, tags, stamp);
    while i < |occs| && created < cap
      invariant created == |slots|
      invariant SeedProgress(occs, i, now, cap, slots)
      invariant db.Valid()
      invariant db.nextId == base + created
      invariant db.State() == AfterRun(s0, base, tmpl, z, slots, tags, stamp)
      decreases |occs| - i
    {
      var occ := occs[i];
      SeedStep(occs, i, now, cap, slots);
      if occ >= now {
        InsertSlot(db, s0, base, tmpl, z, slots, occ, tags, stamp);
        slots := slots + [occ];
        created := created + 1;
      }
      i := i + 1;
    }
    SeedDone(occs, i, now, cap, slots);
  }

  /// The shortfall loop of the top-up: `taken` holds the occupied slots.
  method FillTasks(db: Store, tmpl: Template, z: Zone, tags: set<Id>, occs: seq<Instant>,
                   now: Instant, taken: set<Key>, needed: nat, stamp: string)
    requires db.Valid()
    modifies db
    ensures db.Valid()
    ensures db.nextId == old(db.nextId) + |Filled(occs, now, z, tmpl.time, taken, needed)|
    ensures db.State() == AfterRun(old(db.State()), old(db.nextId), tmpl, z,
                                   Filled(occs, now, z, tmpl.time, taken, needed), tags, stamp)
  {
    var base := db.nextId;
    ghost var s0 := db.State();
    ghost var slots: seq<Instant> := [];
    var keys := taken;
    var created := 0;
    var i := 0;
    AfterRunEmpty(s0, base, tmpl, z, tags, stamp);
    assert SlotKeys(z, [], tmpl.time) == {};
    while i < |occs| && created < needed
      invariant created == |slots|
      invariant keys == taken + SlotKeys(z, slots, tmpl.time)
      invariant FillProgress(occs, i, now, z, tmpl.time, taken, needed, slots)
      invariant db.Valid()
      invariant db.nextId == base + created
      invariant db.State() == AfterRun(s0, base, tmpl, z, slots, tags, stamp)
      decreases |occs| - i
    {
      var occ := occs[i];
      var key := SlotKey(z, occ, tmpl.time);
      FillStep(occs, i, now, z, tmpl.time, taken, needed, slots);
      if occ >= now && key !in keys {
        InsertSlot(db, s0, base, tmpl, z, slots, occ, tags, stamp);
        assert SlotKeys(z, slots + [occ], tmpl.time) == SlotKeys(z, slots, tmpl.time) + {key};
        slots := slots + [occ];
        keys := keys + {key};
        created := created + 1;
      }
      i := i + 1;
    }
    FillDone(occs, i, now, z, tmpl.time, taken, needed, slots);
  }
}
