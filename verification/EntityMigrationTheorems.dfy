// Downgrading and upgrading again: nothing is lost, and what is written in
// between is merged so that the newest entity of each group stays.
module EntityMigrationTheorems {
  import opened Utf8
  import opened EntityMigration
  import opened Wrappers

  // ---------------------------------------------------------------- what a valid snapshot is

  /** Data rows with different ids, and among them one marker with their number. */
  ghost predicate WellFormedSnapshot(rows: seq<SnapshotRow>) {
    DistinctData(rows) && exists r :: MarkerAt(rows, r)
  }

  ghost predicate MarkerAt(rows: seq<SnapshotRow>, r: int) {
    && 0 <= r < |rows| && rows[r].kind == Ready && rows[r].count == Some(|rows| - 1)
    && forall i :: 0 <= i < |rows| && i != r ==> rows[i].kind == Data
  }

  lemma {:induction false} CountsAdd(rows: seq<SnapshotRow>)
    ensures CountKind(rows, Data) + CountKind(rows, Ready) + CountKind(rows, OtherKind) == |rows|
    ensures CountKind(rows, Ready) == 0 ==> ReadyCount(rows) == None
    ensures forall i :: 0 <= i < |rows| ==> CountKind(rows, rows[i].kind) > 0
  {
    if rows != [] {
      CountsAdd(rows[..|rows| - 1]);
      assert forall i :: 0 <= i < |rows| - 1 ==> rows[..|rows| - 1][i] == rows[i];
    }
  }

  /** With one READY row, MAX gives its count. */
  lemma {:induction false} OneReady(rows: seq<SnapshotRow>) returns (r: int)
    requires CountKind(rows, Ready) == 1
    ensures 0 <= r < |rows| && rows[r].kind == Ready && ReadyCount(rows) == rows[r].count
    ensures forall i :: 0 <= i < |rows| && i != r ==> rows[i].kind != Ready
  {
    var init, last := rows[..|rows| - 1], rows[|rows| - 1];
    CountsAdd(init);
    if last.kind == Ready {
      r := |rows| - 1;
      assert forall i :: 0 <= i < |init| ==> init[i] == rows[i];
    } else {
      r := OneReady(init);
      assert forall i :: 0 <= i < |init| ==> init[i] == rows[i];
    }
  }

  lemma {:induction false} ReadyAt(rows: seq<SnapshotRow>, r: nat)
    requires r < |rows| && rows[r].kind == Ready && forall i :: 0 <= i < |rows| && i != r ==> rows[i].kind == Data
    ensures CountKind(rows, Ready) == 1 && CountKind(rows, OtherKind) == 0 && ReadyCount(rows) == rows[r].count
  {
    var init := rows[..|rows| - 1];
    assert forall i :: 0 <= i < |init| ==> init[i] == rows[i];
    if r == |rows| - 1 {
      CountAll(init, Ready);
      CountAll(init, OtherKind);
    } else {
      ReadyAt(init, r);
    }
  }

  /** The aggregates accept exactly the well-formed snapshots. */
  lemma ValidatesIff(rows: seq<SnapshotRow>)
    ensures Validates(rows, None, true) <==> WellFormedSnapshot(rows)
  {
    DistinctCount(rows);
    CountsAdd(rows);
    if Validates(rows, None, true) {
      var r := OneReady(rows);
      assert MarkerAt(rows, r);
    }
    if WellFormedSnapshot(rows) {
      var r :| MarkerAt(rows, r);
      ReadyAt(rows, r);
    }
  }

  // ---------------------------------------------------------------- reading the snapshot back

  lemma {:induction false} DataAppAt(rows: seq<SnapshotRow>, i: nat, id: Id)
    requires DistinctData(rows) && i < |rows| && rows[i].kind == Data && rows[i].entity == Some(id)
    ensures DataApp(rows, id) == Some(rows[i].app)
  {
    if i > 0 {
      assert rows[0].kind == Data ==> rows[0].entity != rows[i].entity;
      DataAppAt(rows[1..], i - 1, id);
    }
  }

  lemma {:induction false} DataAppNone(rows: seq<SnapshotRow>, id: Id)
    requires forall i :: 0 <= i < |rows| && rows[i].kind == Data ==> rows[i].entity != Some(id)
    ensures DataApp(rows, id) == None
  {
    if rows != [] { DataAppNone(rows[1..], id); }
  }

  /** The snapshot holds the app of every entity there was, and of no other. */
  lemma SnapshotHolds(rows: seq<SnapshotRow>, apps: map<Id, Option<string>>, id: Id)
    requires SnapshotOf(rows, apps)
    ensures DataApp(rows, id) == if id in apps then Some(apps[id]) else None
  {
    if id in apps {
      var i :| 0 <= i < |apps| && rows[i].entity == Some(id);
      assert DataRow(rows[i], apps);
      DataAppAt(rows, i, id);
    } else {
      forall i | 0 <= i < |rows| && rows[i].kind == Data ensures rows[i].entity != Some(id) { assert i < |apps| ==> DataRow(rows[i], apps); }
      DataAppNone(rows, id);
    }
  }

  // ---------------------------------------------------------------- theorems

  /** With nothing written in between, upgrading gives the app column back and deletes nothing, whatever became of the projects. */
  lemma RoundTrip(entities: map<Id, Row>, apps: map<Id, Option<string>>, projects: map<string, Option<string>>, rows: seq<SnapshotRow>)
    requires apps.Keys == entities.Keys && NoNulls(apps) && UniqueGroups(entities, apps) && SnapshotOf(rows, apps)
    ensures var snapshot := Some(Current(rows));
      && Acceptable(snapshot, entities) && UpgradedApps(entities, projects, snapshot) == apps && Survivors(entities, apps) == entities.Keys
  {
    hide Validates, UpgradedApps, Survivors, UniqueGroups, SnapshotOf, DefaultApp, NoNulls;
    SnapshotValidates(rows, apps);
    AppsKept(entities, apps, projects, rows);
    AllSurvive(entities, apps);
    assert UpgradedApps(entities, projects, Some(Current(rows))) == apps;
    AcceptsCurrent(rows, entities, apps);
  }

  lemma AllSurvive(entities: map<Id, Row>, apps: map<Id, Option<string>>)
    requires apps.Keys == entities.Keys && UniqueGroups(entities, apps)
    ensures Survivors(entities, apps) == entities.Keys
  {
    hide Survivors, SameGroup, Newer;
    SurvivorsAreEntities(entities, apps);
    forall id | id in entities ensures id in Survivors(entities, apps) { RankOne(entities, apps, id); }
  }

  lemma AcceptsCurrent(rows: seq<SnapshotRow>, entities: map<Id, Row>, apps: map<Id, Option<string>>)
    requires Validates(rows, Some(|apps|), true)
    ensures Acceptable(Some(Current(rows)), entities)
  {
  }

  /**
   * Whatever is inserted, deleted or updated in between, and whatever becomes of the projects: the upgrade is accepted,
   * entities that were there keep their app and new ones get the default, groups become unique, none disappears, and
   * what stays is the newest of its group.
   */
  lemma WritesAreMerged(entities: map<Id, Row>, apps: map<Id, Option<string>>, projects: map<string, Option<string>>, rows: seq<SnapshotRow>)
    requires NoNulls(apps) && SnapshotOf(rows, apps)
    ensures var snapshot := Some(Current(rows));
      var given := UpgradedApps(entities, projects, snapshot);
      var kept := Survivors(entities, given);
      && Acceptable(snapshot, entities) && NoNulls(given) && UniqueGroups(Keep(entities, kept), Keep(given, kept))
      && (forall id :: id in entities ==> given[id] == if id in apps then apps[id] else Some(DefaultApp(projects, entities[id].project)))
      && (forall id :: id in entities ==> exists s :: s in kept && SameGroup(entities, given, s, id) && (s == id || Newer(entities, s, id)))
      && (forall s, o :: s in kept && o in entities && o != s && SameGroup(entities, given, o, s) ==> Newer(entities, s, o))
  {
    hide Acceptable, Validates, UpgradedApps, Survivors, UniqueGroups, SameGroup, Newer, SnapshotOf, DefaultApp, Keep;
    SnapshotValidates(rows, apps);
    AcceptsCurrent(rows, entities, apps);
    AppsKept(entities, apps, projects, rows);
    Deduplicated(entities, UpgradedApps(entities, projects, Some(Current(rows))));
  }

  lemma AppsKept(entities: map<Id, Row>, apps: map<Id, Option<string>>, projects: map<string, Option<string>>, rows: seq<SnapshotRow>)
    requires NoNulls(apps) && SnapshotOf(rows, apps)
    ensures var given := UpgradedApps(entities, projects, Some(Current(rows)));
      && given.Keys == entities.Keys && NoNulls(given)
      && forall id :: id in entities ==> given[id] == if id in apps then apps[id] else Some(DefaultApp(projects, entities[id].project))
  {
    hide SnapshotOf, DataApp, DefaultApp;
    forall id | id in entities ensures DataApp(rows, id) == if id in apps then Some(apps[id]) else None { SnapshotHolds(rows, apps, id); }
  }

  /** Deleting duplicates keeps exactly the newest entity of each group. */
  lemma Deduplicated(entities: map<Id, Row>, apps: map<Id, Option<string>>)
    requires apps.Keys == entities.Keys
    ensures var kept := Survivors(entities, apps);
      && kept <= entities.Keys && UniqueGroups(Keep(entities, kept), Keep(apps, kept))
      && (forall id :: id in entities ==> exists s :: s in kept && SameGroup(entities, apps, s, id) && (s == id || Newer(entities, s, id)))
      && (forall s, o :: s in kept && o in entities && o != s && SameGroup(entities, apps, o, s) ==> Newer(entities, s, o))
  {
    SurvivorsUnique(entities, apps);
    SurvivorsAreEntities(entities, apps);
    hide Survivors, UniqueGroups, SameGroup, Newer, Keep;
    forall id | id in entities
      ensures exists s :: s in Survivors(entities, apps) && SameGroup(entities, apps, s, id) && (s == id || Newer(entities, s, id))
    {
      GroupKept(entities, apps, id);
    }
    forall s, o | s in Survivors(entities, apps) && o in entities && o != s && SameGroup(entities, apps, o, s) ensures Newer(entities, s, o) {
      RankOne(entities, apps, s);
    }
  }

  lemma SurvivorsAreEntities(entities: map<Id, Row>, apps: map<Id, Option<string>>)
    requires apps.Keys == entities.Keys
    ensures Survivors(entities, apps) <= entities.Keys
  {
  }

  lemma KeepAll<T>(m: map<Id, T>, ids: set<Id>)
    requires m.Keys <= ids
    ensures Keep(m, ids) == m
  {
  }

  /** The two migrations, one after the other, leave the tables as they were. */
  method DowngradeAndUpgrade(db: Database)
    requires db.Upgraded()
    modifies db
    ensures db.Upgraded() && db.entities == old(db.entities) && db.apps == old(db.apps) && db.projects == old(db.projects)
  {
    hide Acceptable, UpgradedApps, Survivors, UniqueGroups, NoNulls, Keep, SnapshotOf;
    ghost var entities, apps := db.entities, db.apps.value;
    var down := db.Downgrade();
    RoundTrip(entities, apps, db.projects, db.snapshot.value.rows);
    KeepAll(entities, entities.Keys);
    KeepAll(apps, entities.Keys);
    var up := db.Upgrade();
  }
}
