// What the migration does to each entity: the app it gets, whether it stays, and
// which compatibility snapshots it takes.
module EntityMigrationEffects {
  import opened EntityMigration
  import opened EntityMigrationTheorems
  import opened Utf8
  import opened Wrappers

  /** A row of the older table. */
  ghost predicate LegacySays(rows: seq<LegacyRow>, id: Id, app: Option<string>) {
    exists i :: 0 <= i < |rows| && rows[i] == LegacyRow(Some(id), app)
  }

  /** A data row of the table. */
  ghost predicate DataSays(rows: seq<SnapshotRow>, id: Id, app: Option<string>) {
    exists i :: 0 <= i < |rows| && rows[i].kind == Data && rows[i].entity == Some(id) && rows[i].app == app
  }

  /** The snapshot has a row for the entity, with this app. */
  ghost predicate Says(snapshot: Option<Snapshot>, id: Id, app: Option<string>) {
    match snapshot
    case Some(Current(rows)) => DataSays(rows, id, app)
    case Some(Legacy(_, rows)) => LegacySays(rows, id, app)
    case _ => false
  }

  /** The default app of the project, if it has one, and the id of the project otherwise. */
  ghost predicate Defaults(projects: map<string, Option<string>>, project: string, app: Option<string>) {
    if project in projects && projects[project].Some? then app == projects[project] else app == Some(project)
  }

  /**
   * The tables that are taken: none; one of this revision whose data rows have different ids and which has one marker
   * with their number; or an older one whose rows are complete, with different ids of entities, and which is empty only
   * if there are none.
   */
  ghost predicate Takes(snapshot: Option<Snapshot>, entities: map<Id, Row>) {
    match snapshot
    case None => true
    case Some(OtherStructure) => false
    case Some(Current(rows)) =>
      exists r: nat :: r < |rows| && rows[r].kind == Ready && rows[r].count == Some(|rows| - 1) && DataBut(rows, r)
    case Some(Legacy(exact, rows)) =>
      && exact && (rows == [] ==> entities == map[])
      && (forall i :: 0 <= i < |rows| ==> rows[i].entity.Some? && rows[i].app.Some? && rows[i].entity.value in entities)
      && forall i, j :: 0 <= i < j < |rows| ==> rows[i].entity != rows[j].entity
  }

  /** All rows but the marker are data rows, with different ids. */
  ghost predicate DataBut(rows: seq<SnapshotRow>, r: nat) {
    && (forall i :: 0 <= i < |rows| && i != r ==> rows[i].kind == Data && rows[i].entity.Some?)
    && forall i, j :: 0 <= i < j < |rows| && i != r && j != r ==> rows[i].entity != rows[j].entity
  }

  /** The other entity has the same project, app, type and name, and was changed later, or made later, or has the larger id. */
  ghost predicate Supersedes(entities: map<Id, Row>, apps: map<Id, Option<string>>, o: Id, id: Id)
    requires o in entities && id in entities && apps.Keys == entities.Keys
  {
    var a, b := entities[o], entities[id];
    && a.project == b.project && apps[o] == apps[id] && a.kind == b.kind && a.entity == b.entity
    && (|| a.updated > b.updated
        || (a.updated == b.updated && a.created > b.created)
        || (a.updated == b.updated && a.created == b.created && exists k: nat :: FirstDiffers(id, o, k)))
  }

  lemma {:induction false} DataAppIs(rows: seq<SnapshotRow>, id: Id)
    ensures DataApp(rows, id).None? <==> forall app :: !DataSays(rows, id, app)
    ensures DataApp(rows, id).Some? ==> DataSays(rows, id, DataApp(rows, id).value)
  {
    if rows != [] {
      DataAppIs(rows[1..], id);
      if rows[0].kind == Data && rows[0].entity == Some(id) {
        assert DataSays(rows, id, rows[0].app);
      } else {
        forall app ensures DataSays(rows, id, app) <==> DataSays(rows[1..], id, app) {
          if DataSays(rows[1..], id, app) {
            var i :| 0 <= i < |rows[1..]| && rows[1..][i].kind == Data && rows[1..][i].entity == Some(id) && rows[1..][i].app == app;
            assert rows[i + 1] == rows[1..][i];
          }
          if DataSays(rows, id, app) {
            var i :| 0 <= i < |rows| && rows[i].kind == Data && rows[i].entity == Some(id) && rows[i].app == app;
            assert rows[1..][i - 1] == rows[i];
          }
        }
      }
    }
  }

  lemma {:induction false} LegacyAppIs(rows: seq<LegacyRow>, id: Id)
    ensures LegacyApp(rows, id).None? <==> forall app :: !LegacySays(rows, id, app)
    ensures LegacyApp(rows, id).Some? ==> LegacySays(rows, id, LegacyApp(rows, id).value)
  {
    if rows != [] {
      LegacyAppIs(rows[1..], id);
      if rows[0].entity == Some(id) {
        assert LegacySays(rows, id, rows[0].app);
      } else {
        forall app ensures LegacySays(rows, id, app) <==> LegacySays(rows[1..], id, app) {
          if LegacySays(rows[1..], id, app) {
            var i :| 0 <= i < |rows[1..]| && rows[1..][i] == LegacyRow(Some(id), app);
            assert rows[i + 1] == rows[1..][i];
          }
          if LegacySays(rows, id, app) {
            var i :| 0 <= i < |rows| && rows[i] == LegacyRow(Some(id), app);
            assert rows[1..][i - 1] == rows[i];
          }
        }
      }
    }
  }

  lemma {:induction false} LegacyCount(rows: seq<LegacyRow>)
    requires forall i :: 0 <= i < |rows| ==> rows[i].entity.Some?
    ensures |LegacyIds(rows)| <= |rows|
    ensures |LegacyIds(rows)| == |rows| <==> forall i, j :: 0 <= i < j < |rows| ==> rows[i].entity != rows[j].entity
  {
    if rows == [] {
      assert LegacyIds(rows) == {};
    } else {
      var init, last := rows[..|rows| - 1], rows[|rows| - 1];
      LegacyCount(init);
      assert forall i :: 0 <= i < |init| ==> init[i] == rows[i];
      assert LegacyIds(rows) == LegacyIds(init) + {last.entity.value};
      if last.entity.value in LegacyIds(init) {
        var i :| 0 <= i < |init| && init[i].entity == last.entity;
        assert rows[i].entity == rows[|rows| - 1].entity;
      }
    }
  }

  /** Which compatibility tables the upgrade takes. */
  lemma TakesIff(snapshot: Option<Snapshot>, entities: map<Id, Row>)
    ensures Acceptable(snapshot, entities) <==> Takes(snapshot, entities)
  {
    match snapshot
    case Some(Current(rows)) =>
      ValidatesIff(rows);
      hide Validates;
      if WellFormedSnapshot(rows) {
        var r :| MarkerAt(rows, r);
        assert DataBut(rows, r);
      }
      if Takes(snapshot, entities) {
        var r: nat :| r < |rows| && rows[r].kind == Ready && rows[r].count == Some(|rows| - 1) && DataBut(rows, r);
        assert MarkerAt(rows, r);
      }
    case Some(Legacy(exact, rows)) =>
      if forall i :: 0 <= i < |rows| ==> rows[i].entity.Some? { LegacyCount(rows); }
      if forall i :: 0 <= i < |rows| ==> rows[i].entity.Some? && rows[i].entity.value in entities {
        assert LegacyIds(rows) <= entities.Keys;
      }
      if LegacyIds(rows) <= entities.Keys {
        forall i | 0 <= i < |rows| && rows[i].entity.Some? ensures rows[i].entity.value in entities {
          assert rows[i].entity.value in LegacyIds(rows);
        }
      }
    case _ =>
  }

  /** The app that each entity gets: what the snapshot has for it, null or not, and the default of its project otherwise. */
  lemma AppsAre(entities: map<Id, Row>, projects: map<string, Option<string>>, snapshot: Option<Snapshot>)
    ensures var given := UpgradedApps(entities, projects, snapshot);
      && given.Keys == entities.Keys
      && forall id :: id in entities ==>
           || Says(snapshot, id, given[id])
           || ((forall app :: !Says(snapshot, id, app)) && Defaults(projects, entities[id].project, given[id]))
  {
    forall id | id in entities
      ensures SnapshotApp(snapshot, id).None? <==> forall app :: !Says(snapshot, id, app)
      ensures SnapshotApp(snapshot, id).Some? ==> Says(snapshot, id, SnapshotApp(snapshot, id).value)
    {
      SnapshotAppIs(snapshot, id);
    }
    hide SnapshotApp, Says;
  }

  lemma SnapshotAppIs(snapshot: Option<Snapshot>, id: Id)
    ensures SnapshotApp(snapshot, id).None? <==> forall app :: !Says(snapshot, id, app)
    ensures SnapshotApp(snapshot, id).Some? ==> Says(snapshot, id, SnapshotApp(snapshot, id).value)
  {
    hide DataSays, LegacySays, DataApp, LegacyApp;
    match snapshot
    case Some(Current(rows)) =>
      DataAppIs(rows, id);
      assert forall app :: Says(snapshot, id, app) <==> DataSays(rows, id, app);
    case Some(Legacy(_, rows)) =>
      LegacyAppIs(rows, id);
      assert forall app :: Says(snapshot, id, app) <==> LegacySays(rows, id, app);
    case _ =>
      assert forall app :: !Says(snapshot, id, app);
  }

  /** An entity goes exactly if another one supersedes it. */
  lemma StaysIff(entities: map<Id, Row>, apps: map<Id, Option<string>>, id: Id)
    requires apps.Keys == entities.Keys && id in entities
    ensures id in Survivors(entities, apps) <==> forall o :: o in entities ==> !Supersedes(entities, apps, o, id)
  {
    RankOne(entities, apps, id);
    LessTotal(id, id);
    hide Survivors;
    forall o | o in entities ensures Supersedes(entities, apps, o, id) <==> SameGroup(entities, apps, o, id) && Newer(entities, o, id) {
      LessIff(id, o);
    }
    forall o | o in entities && o != id ensures Newer(entities, id, o) <==> !Newer(entities, o, id) { NewerTotal(entities, id, o); }
    assert !Newer(entities, id, id);
  }
}
