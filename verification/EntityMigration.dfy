// Migration 0006: entity projections get an app, duplicates are removed; the
// downgrade keeps the apps in a snapshot table for the next upgrade.
module EntityMigration {
  import opened SetSizes
  import opened Utf8
  import opened Wrappers

  type Id = Text

  /** The columns of an entity that both revisions have, apart from its id. */
  datatype Row = Row(project: string, kind: string, entity: string, updated: int, created: int, rest: string)

  datatype SnapshotKind = Data | Ready | OtherKind

  datatype SnapshotRow = SnapshotRow(entity: Option<Id>, app: Option<string>, kind: SnapshotKind, count: Option<nat>)

  datatype LegacyRow = LegacyRow(entity: Option<Id>, app: Option<string>)

  /** The compatibility table: of this revision, of the older form, or of another structure. */
  datatype Snapshot =
    | Current(rows: seq<SnapshotRow>)
    | Legacy(exactStructure: bool, legacy: seq<LegacyRow>)
    | OtherStructure

  // ---------------------------------------------------------------- validating a snapshot

  function CountKind(rows: seq<SnapshotRow>, kind: SnapshotKind): (n: nat)
    ensures n <= |rows|
  {
    if rows == [] then 0 else CountKind(rows[..|rows| - 1], kind) + if rows[|rows| - 1].kind == kind then 1 else 0
  }

  /** The ids that COUNT(DISTINCT ...) sees: those of data rows, nulls apart. */
  function DataIds(rows: seq<SnapshotRow>): set<Id> {
    set i | 0 <= i < |rows| && rows[i].kind == Data && rows[i].entity.Some? :: rows[i].entity.value
  }

  function MaxOption(a: Option<nat>, b: Option<nat>): Option<nat> {
    if a.None? then b else if b.None? then a else Some(if a.value < b.value then b.value else a.value)
  }

  /** MAX over the counts of READY rows. */
  function ReadyCount(rows: seq<SnapshotRow>): Option<nat> {
    if rows == [] then None
    else MaxOption(ReadyCount(rows[..|rows| - 1]), if rows[|rows| - 1].kind == Ready then rows[|rows| - 1].count else None)
  }

  /** `_validate_compatibility_snapshot` raises nothing. */
  predicate Validates(rows: seq<SnapshotRow>, expected: Option<nat>, requireReady: bool) {
    && CountKind(rows, OtherKind) == 0 && |DataIds(rows)| == CountKind(rows, Data)
    && (expected.Some? ==> CountKind(rows, Data) == expected.value)
    && (if requireReady then CountKind(rows, Ready) == 1 && ReadyCount(rows) == Some(CountKind(rows, Data)) else CountKind(rows, Ready) == 0)
  }

  function LegacyIds(rows: seq<LegacyRow>): set<Id> {
    set i | 0 <= i < |rows| && rows[i].entity.Some? :: rows[i].entity.value
  }

  /** `_validate_legacy_compatibility_snapshot` raises nothing. */
  predicate LegacyValidates(exact: bool, rows: seq<LegacyRow>, entities: map<Id, Row>) {
    && exact && (forall i :: 0 <= i < |rows| ==> rows[i].entity.Some? && rows[i].app.Some?)
    && |LegacyIds(rows)| == |rows|
    && (if rows == [] then entities == map[] else LegacyIds(rows) <= entities.Keys)
  }

  predicate Acceptable(snapshot: Option<Snapshot>, entities: map<Id, Row>) {
    match snapshot
    case None => true
    case Some(Current(rows)) => Validates(rows, None, true)
    case Some(Legacy(exact, rows)) => LegacyValidates(exact, rows, entities)
    case Some(OtherStructure) => false
  }

  // ---------------------------------------------------------------- the apps of the upgrade

  function DefaultApp(projects: map<string, Option<string>>, project: string): string {
    if project in projects && projects[project].Some? then projects[project].value else project
  }

  /** The app that the snapshot holds for an entity, null or not. */
  function DataApp(rows: seq<SnapshotRow>, id: Id): Option<Option<string>> {
    if rows == [] then None
    else if rows[0].kind == Data && rows[0].entity == Some(id) then Some(rows[0].app)
    else DataApp(rows[1..], id)
  }

  function LegacyApp(rows: seq<LegacyRow>, id: Id): Option<Option<string>> {
    if rows == [] then None else if rows[0].entity == Some(id) then Some(rows[0].app) else LegacyApp(rows[1..], id)
  }

  function SnapshotApp(snapshot: Option<Snapshot>, id: Id): Option<Option<string>> {
    match snapshot
    case Some(Current(rows)) => DataApp(rows, id)
    case Some(Legacy(_, rows)) => LegacyApp(rows, id)
    case _ => None
  }

  function UpgradedApps(entities: map<Id, Row>, projects: map<string, Option<string>>, snapshot: Option<Snapshot>): map<Id, Option<string>> {
    map id | id in entities ::
      if SnapshotApp(snapshot, id).Some? then SnapshotApp(snapshot, id).value else Some(DefaultApp(projects, entities[id].project))
  }

  // ---------------------------------------------------------------- duplicates

  predicate SameGroup(entities: map<Id, Row>, apps: map<Id, Option<string>>, a: Id, b: Id)
    requires a in entities && b in entities && a in apps && b in apps
  {
    && entities[a].project == entities[b].project && apps[a] == apps[b]
    && entities[a].kind == entities[b].kind && entities[a].entity == entities[b].entity
  }

  /** Whether `a` comes before `b` in the order of updated_at, created_at, id, all descending. */
  predicate Newer(entities: map<Id, Row>, a: Id, b: Id)
    requires a in entities && b in entities
  {
    || entities[a].updated > entities[b].updated
    || (entities[a].updated == entities[b].updated
        && (entities[a].created > entities[b].created || (entities[a].created == entities[b].created && Less(b, a))))
  }

  /** ROW_NUMBER() of an entity in its partition. */
  function DuplicateRank(entities: map<Id, Row>, apps: map<Id, Option<string>>, id: Id): nat
    requires id in entities && apps.Keys == entities.Keys
  {
    1 + |set o | o in entities && SameGroup(entities, apps, o, id) && Newer(entities, o, id)|
  }

  function Survivors(entities: map<Id, Row>, apps: map<Id, Option<string>>): set<Id>
    requires apps.Keys == entities.Keys
  {
    set id | id in entities && DuplicateRank(entities, apps, id) == 1
  }

  ghost predicate UniqueGroups(entities: map<Id, Row>, apps: map<Id, Option<string>>)
    requires apps.Keys == entities.Keys
  {
    forall a, b :: a in entities && b in entities && a != b ==> !SameGroup(entities, apps, a, b)
  }

  predicate NoNulls(apps: map<Id, Option<string>>) { forall id :: id in apps ==> apps[id].Some? }

  function Keep<T>(m: map<Id, T>, ids: set<Id>): map<Id, T> { map id | id in m && id in ids :: m[id] }

  // ---------------------------------------------------------------- the tables

  ghost predicate DataRow(row: SnapshotRow, apps: map<Id, Option<string>>) {
    row.kind == Data && row.count == None && row.entity.Some? && row.entity.value in apps && row.app == apps[row.entity.value]
  }

  /** What the downgrade leaves: one data row for each entity, and the marker with their number. */
  ghost predicate SnapshotOf(rows: seq<SnapshotRow>, apps: map<Id, Option<string>>) {
    && |rows| == |apps| + 1 && rows[|apps|] == SnapshotRow(None, None, Ready, Some(|apps|))
    && (forall i :: 0 <= i < |apps| ==> DataRow(rows[i], apps))
    && (forall i, j :: 0 <= i < j < |apps| ==> rows[i].entity != rows[j].entity)
    && (forall id :: id in apps ==> exists i :: 0 <= i < |apps| && rows[i].entity == Some(id))
  }

  class Database {
    var entities: map<Id, Row>
    var projects: map<string, Option<string>>
    var apps: Option<map<Id, Option<string>>>  // the app_id column, if it is there
    var unique: bool                           // the unique constraint on project, app, type and entity
    var snapshot: Option<Snapshot>

    /** At revision 0006. */
    ghost predicate Upgraded()
      reads this
    {
      && apps.Some? && apps.value.Keys == entities.Keys && NoNulls(apps.value) && UniqueGroups(entities, apps.value) && unique
    }

    /** At revision 0005. */
    ghost predicate Downgraded()
      reads this
    {
      apps.None? && !unique
    }

    /** `upgrade`; false where it raises, which rolls everything back. */
    method Upgrade() returns (ok: bool)
      requires Downgraded()
      modifies this
      ensures projects == old(projects)
      ensures var given := UpgradedApps(old(entities), projects, old(snapshot));
        && (ok <==> Acceptable(old(snapshot), old(entities)) && NoNulls(given))
        && (ok ==> Upgraded() && snapshot.None? && var kept := Survivors(old(entities), given);
                     entities == Keep(old(entities), kept) && apps == Some(Keep(given, kept)))
      ensures !ok ==> Downgraded() && entities == old(entities) && snapshot == old(snapshot)
    {
      if !Acceptable(snapshot, entities) { return false; }
      var before := entities;
      hide Acceptable, UpgradedApps, DefaultApp, SnapshotApp, Survivors, UniqueGroups, NoNulls;
      FillApps();
      ghost var given := apps.value;
      DeleteDuplicates();
      NullsStay(before, given);
      if !NoNulls(apps.value) {
        entities, apps := before, None;
        return false;
      }
      unique, snapshot := true, None;
      return true;
    }

    /** The new column: the default app everywhere, and then what the snapshot holds. */
    method FillApps()
      requires apps.None?
      modifies this`apps
      ensures apps == Some(UpgradedApps(entities, projects, snapshot))
    {
      hide DefaultApp, SnapshotApp;
      var column := map id | id in entities :: Some(DefaultApp(projects, entities[id].project));
      column := map id | id in entities :: if SnapshotApp(snapshot, id).Some? then SnapshotApp(snapshot, id).value else column[id];
      assert column == UpgradedApps(entities, projects, snapshot);
      apps := Some(column);
    }

    /** The entities whose row number is above 1 go. */
    method DeleteDuplicates()
      requires apps.Some? && apps.value.Keys == entities.Keys
      modifies this`entities, this`apps
      ensures var kept := Survivors(old(entities), old(apps).value);
        entities == Keep(old(entities), kept) && apps == Some(Keep(old(apps).value, kept))
      ensures apps.value.Keys == entities.Keys && UniqueGroups(entities, apps.value)
    {
      SurvivorsUnique(entities, apps.value);
      hide Survivors, UniqueGroups;
      var kept := Survivors(entities, apps.value);
      entities, apps := Keep(entities, kept), Some(Keep(apps.value, kept));
    }

    /** `downgrade`; false where there is no app column to keep. */
    method Downgrade() returns (ok: bool)
      modifies this
      requires apps.Some? ==> Upgraded()
      ensures ok == old(apps).Some? && entities == old(entities) && projects == old(projects)
      ensures !ok ==> apps == old(apps) && unique == old(unique) && snapshot == old(snapshot)
      ensures ok ==> Downgraded() && snapshot.Some? && snapshot.value.Current? && SnapshotOf(snapshot.value.rows, old(apps).value)
    {
      if apps.None? { return false; }
      RebuildSnapshot();
      unique, apps := false, None;
      return true;
    }

    /** `_rebuild_compatibility_snapshot`. */
    method RebuildSnapshot()
      requires apps.Some? && apps.value.Keys == entities.Keys
      modifies this
      ensures entities == old(entities) && projects == old(projects) && apps == old(apps) && unique == old(unique)
      ensures snapshot.Some? && snapshot.value.Current? && SnapshotOf(snapshot.value.rows, apps.value)
      ensures Validates(snapshot.value.rows, Some(|entities|), true)
    {
      hide Copied, SnapshotOf;
      var column := apps.value;
      var rows: seq<SnapshotRow> := [];
      var todo := column.Keys;
      CopyNothing(column);
      while todo != {}
        invariant Copied(rows, column, todo)
        modifies {}
        decreases |todo|
      {
        var id :| id in todo;
        CopyNext(rows, column, todo, id);
        rows, todo := rows + [SnapshotRow(Some(id), column[id], Data, None)], todo - {id};
      }
      MarkerCompletes(rows, column);
      assert |column| == |entities|;
      rows := rows + [SnapshotRow(None, None, Ready, Some(|rows|))];
      snapshot := Some(Current(rows));
      SnapshotValidates(rows, column);
    }
  }

  /** The data rows written so far: one for each entity that is not still to do. */
  ghost predicate Copied(rows: seq<SnapshotRow>, apps: map<Id, Option<string>>, todo: set<Id>) {
    && todo <= apps.Keys && |rows| + |todo| == |apps|
    && (forall i :: 0 <= i < |rows| ==> DataRow(rows[i], apps) && rows[i].entity.value !in todo)
    && (forall i, j :: 0 <= i < j < |rows| ==> rows[i].entity != rows[j].entity)
    && (forall id :: id in apps && id !in todo ==> exists i :: 0 <= i < |rows| && rows[i].entity == Some(id))
  }

  lemma CopyNext(rows: seq<SnapshotRow>, apps: map<Id, Option<string>>, todo: set<Id>, id: Id)
    requires Copied(rows, apps, todo) && id in todo
    ensures id in apps && Copied(rows + [SnapshotRow(Some(id), apps[id], Data, None)], apps, todo - {id}) && |todo - {id}| < |todo|
  {
    var next := rows + [SnapshotRow(Some(id), apps[id], Data, None)];
    assert next[|rows|].entity == Some(id);
    assert forall i :: 0 <= i < |rows| ==> next[i] == rows[i];
    assert |todo - {id}| == |todo| - 1;
  }

  lemma CopyNothing(apps: map<Id, Option<string>>)
    ensures Copied([], apps, apps.Keys)
  {
  }

  lemma MarkerCompletes(rows: seq<SnapshotRow>, apps: map<Id, Option<string>>)
    requires Copied(rows, apps, {})
    ensures SnapshotOf(rows + [SnapshotRow(None, None, Ready, Some(|rows|))], apps)
  {
    hide DataRow;
    var all := rows + [SnapshotRow(None, None, Ready, Some(|rows|))];
    assert forall i :: 0 <= i < |rows| ==> all[i] == rows[i];
    forall id | id in apps ensures exists i :: 0 <= i < |apps| && all[i].entity == Some(id) {
      var i :| 0 <= i < |rows| && rows[i].entity == Some(id);
      assert all[i].entity == Some(id);
    }
  }

  // ---------------------------------------------------------------- lemmas the methods rest on

  lemma {:induction false} CountAll(rows: seq<SnapshotRow>, kind: SnapshotKind)
    requires forall i :: 0 <= i < |rows| ==> rows[i].kind == Data
    ensures CountKind(rows, kind) == (if kind == Data then |rows| else 0) && ReadyCount(rows) == None
  {
    if rows != [] { CountAll(rows[..|rows| - 1], kind); }
  }

  /** How many ids COUNT(DISTINCT ...) sees grows by one with a row, unless it sees the id already. */
  lemma DataIdsStep(rows: seq<SnapshotRow>)
    requires rows != []
    ensures var last := rows[|rows| - 1];
      DataIds(rows) == DataIds(rows[..|rows| - 1]) + (if last.kind == Data && last.entity.Some? then {last.entity.value} else {})
  {
    var init := rows[..|rows| - 1];
    assert forall i :: 0 <= i < |init| ==> init[i] == rows[i];
    forall id | id in DataIds(init) ensures id in DataIds(rows) {
      var i :| 0 <= i < |init| && init[i].kind == Data && init[i].entity == Some(id);
      assert rows[i].entity == Some(id);
    }
  }

  /** All data rows have ids, and different ones. */
  ghost predicate DistinctData(rows: seq<SnapshotRow>) {
    && (forall i :: 0 <= i < |rows| && rows[i].kind == Data ==> rows[i].entity.Some?)
    && forall i, j :: 0 <= i < j < |rows| && rows[i].kind == Data && rows[j].kind == Data ==> rows[i].entity != rows[j].entity
  }

  lemma DistinctStep(rows: seq<SnapshotRow>)
    requires rows != []
    ensures var init, last := rows[..|rows| - 1], rows[|rows| - 1];
      DistinctData(rows) <==> DistinctData(init) && (last.kind == Data ==> last.entity.Some? && last.entity.value !in DataIds(init))
  {
    var init, last := rows[..|rows| - 1], rows[|rows| - 1];
    assert forall i :: 0 <= i < |init| ==> init[i] == rows[i];
    if DistinctData(init) && last.kind == Data && last.entity.Some? && last.entity.value in DataIds(init) {
      var i :| 0 <= i < |init| && init[i].kind == Data && init[i].entity == last.entity;
      assert rows[i].entity == rows[|rows| - 1].entity;
    }
  }

  /** The distinct count equals the count exactly if there is no null and no repeated id. */
  lemma {:induction false} DistinctCount(rows: seq<SnapshotRow>)
    ensures |DataIds(rows)| <= CountKind(rows, Data)
    ensures |DataIds(rows)| == CountKind(rows, Data) <==> DistinctData(rows)
  {
    if rows == [] {
      assert DataIds(rows) == {};
    } else {
      DistinctCount(rows[..|rows| - 1]);
      DataIdsStep(rows);
      DistinctStep(rows);
      hide DataIds, DistinctData;
    }
  }

  lemma SnapshotValidates(rows: seq<SnapshotRow>, apps: map<Id, Option<string>>)
    requires SnapshotOf(rows, apps)
    ensures Validates(rows, Some(|apps|), true)
  {
    var init := rows[..|apps|];
    CountAll(init, Data);
    CountAll(init, Ready);
    CountAll(init, OtherKind);
    DistinctCount(rows);
  }

  lemma NewerTotal(entities: map<Id, Row>, a: Id, b: Id)
    requires a in entities && b in entities && a != b
    ensures Newer(entities, a, b) <==> !Newer(entities, b, a)
  {
    LessTotal(a, b);
  }

  lemma NewerTransitive(entities: map<Id, Row>, a: Id, b: Id, c: Id)
    requires a in entities && b in entities && c in entities && Newer(entities, a, b) && Newer(entities, b, c)
    ensures Newer(entities, a, c)
  {
    if Less(b, a) && Less(c, b) { LessTransitive(c, b, a); }
  }

  /** Row number 1 goes to the newest of the group. */
  lemma RankOne(entities: map<Id, Row>, apps: map<Id, Option<string>>, id: Id)
    requires apps.Keys == entities.Keys && id in entities
    ensures id in Survivors(entities, apps) <==>
      forall o :: o in entities && o != id && SameGroup(entities, apps, o, id) ==> Newer(entities, id, o)
  {
    var above := set o | o in entities && SameGroup(entities, apps, o, id) && Newer(entities, o, id);
    LessTotal(id, id);
    forall o | o in entities && o != id ensures Newer(entities, id, o) <==> !Newer(entities, o, id) { NewerTotal(entities, id, o); }
    assert DuplicateRank(entities, apps, id) == 1 + |above|;
    assert |above| == 0 <==> above == {};
    assert above == {} <==> forall o :: o in entities && SameGroup(entities, apps, o, id) ==> o !in above;
  }

  lemma SurvivorsUnique(entities: map<Id, Row>, apps: map<Id, Option<string>>)
    requires apps.Keys == entities.Keys
    ensures var kept := Survivors(entities, apps); UniqueGroups(Keep(entities, kept), Keep(apps, kept))
  {
    var kept := Survivors(entities, apps);
    forall a, b | a in kept && b in kept && a != b ensures !SameGroup(entities, apps, a, b) {
      RankOne(entities, apps, a);
      RankOne(entities, apps, b);
      NewerTotal(entities, a, b);
    }
  }

  /** Every group keeps a member, at least as new as any other. */
  lemma GroupKept(entities: map<Id, Row>, apps: map<Id, Option<string>>, id: Id)
    requires apps.Keys == entities.Keys && id in entities
    ensures exists s :: s in Survivors(entities, apps) && SameGroup(entities, apps, s, id) && (s == id || Newer(entities, s, id))
    decreases DuplicateRank(entities, apps, id)
  {
    if id !in Survivors(entities, apps) {
      RankOne(entities, apps, id);
      var o :| o in entities && o != id && SameGroup(entities, apps, o, id) && !Newer(entities, id, o);
      NewerTotal(entities, id, o);
      RankDrops(entities, apps, id, o);
      GroupKept(entities, apps, o);
      var s :| s in Survivors(entities, apps) && SameGroup(entities, apps, s, o) && (s == o || Newer(entities, s, o));
      if s != o { NewerTransitive(entities, s, o, id); }
    }
  }

  lemma RankDrops(entities: map<Id, Row>, apps: map<Id, Option<string>>, id: Id, o: Id)
    requires apps.Keys == entities.Keys && id in entities && o in entities && SameGroup(entities, apps, o, id) && Newer(entities, o, id)
    ensures DuplicateRank(entities, apps, o) < DuplicateRank(entities, apps, id)
  {
    var above := set x | x in entities && SameGroup(entities, apps, x, o) && Newer(entities, x, o);
    var all := set x | x in entities && SameGroup(entities, apps, x, id) && Newer(entities, x, id);
    forall x | x in above ensures x in all { NewerTransitive(entities, x, o, id); }
    LessTotal(o, o);
    assert o in all && o !in above;
    Smaller(above, all, o);
  }

  /** Removing duplicates cannot remove the last null. */
  lemma NullsStay(entities: map<Id, Row>, apps: map<Id, Option<string>>)
    requires apps.Keys == entities.Keys
    ensures NoNulls(Keep(apps, Survivors(entities, apps))) <==> NoNulls(apps)
  {
    forall id | id in apps && apps[id].None? ensures !NoNulls(Keep(apps, Survivors(entities, apps))) {
      GroupKept(entities, apps, id);
      var s :| s in Survivors(entities, apps) && SameGroup(entities, apps, s, id);
      assert s in Keep(apps, Survivors(entities, apps));
    }
  }
}
