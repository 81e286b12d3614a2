// The local analysis that proposes consolidations: exact duplicates by group, and
// memories past their retention.
module ConsolidationAnalysis {
  import opened Utf8
  import opened KeySort
  import opened Wrappers

  /** A memory row; `auto` says whether its source is one of the automatic ones. */
  datatype Row = Row(
    project: Text, app: Text, id: Text, deleted: bool, active: bool, pinned: bool, hash: Option<Text>,
    user: Option<Text>, agent: Option<Text>, kind: Option<Text>, auto: bool, confidence: real, length: nat, created: int)

  datatype Rule = Rule(days: Option<nat>, shadow: bool)

  datatype Policy = Policy(exactSafe: bool, retentionSafe: bool, retention: map<Text, Rule>, maxProposals: nat)

  datatype DraftKind = ExactDuplicate | RetentionExpired

  datatype Draft = Draft(kind: DraftKind, sources: seq<Text>, canonical: Option<Text>, typeName: Text, size: nat, safe: bool)

  const SECONDS_PER_DAY := 86400
  const MAX_GROUP: nat := 100

  // ---------------------------------------------------------------- keys

  predicate Considered(project: Text, app: Text, r: Row) {
    r.project == project && r.app == app && !r.deleted && r.active && !r.pinned && r.hash.Some?
  }

  function IdKey(r: Row): Key { [r.id] }

  function TypeName(r: Row): Text { if r.kind.Some? && r.kind.value != [] then r.kind.value else Ascii("unknown") }

  /** `_subject_identity`. */
  function Subject(r: Row): Key {
    if r.user.Some? && r.agent.Some? then [Ascii("user_agent"), r.user.value, r.agent.value]
    else if r.user.Some? then [Ascii("user"), r.user.value, []]
    else if r.agent.Some? then [Ascii("agent"), r.agent.value, []]
    else [Ascii("unscoped"), [], []]
  }

  function GroupKey(r: Row): Key { Subject(r) + [TypeName(r), if r.hash.Some? then r.hash.value else []] }

  /** The order of `_canonical_sort_key`. */
  predicate CanonicalBefore(a: Row, b: Row) {
    if a.auto != b.auto then b.auto
    else if a.confidence != b.confidence then a.confidence > b.confidence
    else if a.length != b.length then a.length > b.length
    else if a.created != b.created then a.created < b.created
    else Less(a.id, b.id)
  }

  /** `min(group, key=_canonical_sort_key)`. */
  function Least(rows: seq<Row>): Row
    requires rows != []
  {
    var last := rows[|rows| - 1];
    if |rows| == 1 then last
    else if CanonicalBefore(last, Least(rows[..|rows| - 1])) then last
    else Least(rows[..|rows| - 1])
  }

  // ---------------------------------------------------------------- groups

  function Filter(project: Text, app: Text, rows: seq<Row>): seq<Row> {
    if rows == [] then [] else (if Considered(project, app, rows[0]) then [rows[0]] else []) + Filter(project, app, rows[1..])
  }

  function Eligible(project: Text, app: Text, rows: seq<Row>): seq<Row> { SortBy(IdKey, Filter(project, app, rows)) }

  function Members(rows: seq<Row>, key: Key): seq<Row> {
    if rows == [] then []
    else Members(rows[..|rows| - 1], key) + if GroupKey(rows[|rows| - 1]) == key then [rows[|rows| - 1]] else []
  }

  /** The group keys in the order in which they come up. */
  function Groups(rows: seq<Row>): seq<Key> {
    if rows == [] then []
    else
      var before, key := Groups(rows[..|rows| - 1]), GroupKey(rows[|rows| - 1]);
      if key in before then before else before + [key]
  }

  function Itself(key: Key): Key { key }

  function Ids(rows: seq<Row>): (r: seq<Text>)
    ensures |r| == |rows| && forall i :: 0 <= i < |rows| ==> r[i] == rows[i].id
  {
    seq(|rows|, i requires 0 <= i < |rows| => rows[i].id)
  }

  // ---------------------------------------------------------------- drafts

  predicate Sized(members: seq<Row>) { 2 <= |members| <= MAX_GROUP }

  /** The draft of a group; its members come in the order of their ids. */
  function ExactDraft(policy: Policy, members: seq<Row>): Draft
    requires members != []
  {
    Draft(ExactDuplicate, Ids(members), Some(Least(members).id), TypeName(members[0]), |members|, policy.exactSafe)
  }

  function ExactDrafts(policy: Policy, rows: seq<Row>, keys: seq<Key>): seq<Draft> {
    if keys == [] then []
    else
      var members := Members(rows, keys[|keys| - 1]);
      ExactDrafts(policy, rows, keys[..|keys| - 1]) + if Sized(members) then [ExactDraft(policy, members)] else []
  }

  function ExactIds(rows: seq<Row>, keys: seq<Key>): set<Text> {
    if keys == [] then {}
    else
      var members := Members(rows, keys[|keys| - 1]);
      ExactIds(rows, keys[..|keys| - 1]) + if Sized(members) then (set id | id in Ids(members)) else {}
  }

  predicate Expired(policy: Policy, r: Row, now: int) {
    && TypeName(r) in policy.retention && policy.retention[TypeName(r)].days.Some?
    && now - r.created > policy.retention[TypeName(r)].days.value * SECONDS_PER_DAY
  }

  function RetentionDraft(policy: Policy, r: Row): Draft {
    var shadow := TypeName(r) in policy.retention && policy.retention[TypeName(r)].shadow;
    Draft(RetentionExpired, [r.id], None, TypeName(r), 1, shadow && policy.retentionSafe)
  }

  function RetentionDrafts(policy: Policy, rows: seq<Row>, exact: set<Text>, now: int): seq<Draft> {
    if rows == [] then []
    else
      var last := rows[|rows| - 1];
      RetentionDrafts(policy, rows[..|rows| - 1], exact, now)
      + if last.id !in exact && Expired(policy, last, now) then [RetentionDraft(policy, last)] else []
  }

  function DraftKey(d: Draft): Key {
    [Ascii(if d.kind.ExactDuplicate? then "EXACT_DUPLICATE" else "RETENTION_EXPIRED")] + d.sources
  }

  /** The drafts before they are sorted and cut. */
  function FoundDrafts(policy: Policy, rows: seq<Row>, now: int): seq<Draft> {
    var keys := SortBy(Itself, Groups(rows));
    ExactDrafts(policy, rows, keys) + RetentionDrafts(policy, rows, ExactIds(rows, keys), now)
  }

  function AllDrafts(project: Text, app: Text, policy: Policy, anchors: seq<Row>, now: int): seq<Draft> {
    SortBy(DraftKey, FoundDrafts(policy, Eligible(project, app, anchors), now))
  }

  function Analyzed(project: Text, app: Text, policy: Policy, anchors: seq<Row>, now: int): seq<Draft> {
    var drafts := AllDrafts(project, app, policy, anchors, now);
    if |drafts| <= policy.maxProposals then drafts else drafts[..policy.maxProposals]
  }

  /** `analyze_scope`. */
  method AnalyzeScope(project: Text, app: Text, policy: Policy, anchors: seq<Row>, now: int) returns (drafts: seq<Draft>)
    ensures drafts == Analyzed(project, app, policy, anchors, now)
  {
    var eligible := Eligible(project, app, anchors);
    hide Eligible, ExactDrafts, ExactIds, RetentionDrafts, SortBy;
    var exact;
    drafts, exact := DraftGroups(policy, eligible);
    var retained := DraftRetention(policy, eligible, exact, now);
    drafts := SortBy(DraftKey, drafts + retained);
    if |drafts| > policy.maxProposals { drafts := drafts[..policy.maxProposals]; }
  }

  /** The exact groups, in the order of their keys. */
  method DraftGroups(policy: Policy, rows: seq<Row>) returns (drafts: seq<Draft>, exact: set<Text>)
    ensures var keys := SortBy(Itself, Groups(rows)); drafts == ExactDrafts(policy, rows, keys) && exact == ExactIds(rows, keys)
  {
    var groups, order := GroupRows(rows);
    var keys := SortBy(Itself, order);
    assert forall k :: k in keys ==> k in groups by { SortedKeysKnown(order); }
    drafts, exact := [], {};
    var i := 0;
    while i < |keys|
      invariant 0 <= i <= |keys|
      invariant drafts == ExactDrafts(policy, rows, keys[..i]) && exact == ExactIds(rows, keys[..i])
    {
      hide Members, ExactDraft, SortBy, Groups;
      assert keys[..i + 1][..i] == keys[..i];
      var members := groups[keys[i]];
      if Sized(members) {
        exact := exact + set id | id in Ids(members);
        drafts := drafts + [ExactDraft(policy, members)];
      }
      i := i + 1;
    }
    assert keys[..i] == keys;
  }

  /** The rows past their retention that are in no exact group. */
  method DraftRetention(policy: Policy, rows: seq<Row>, exact: set<Text>, now: int) returns (drafts: seq<Draft>)
    ensures drafts == RetentionDrafts(policy, rows, exact, now)
  {
    drafts := [];
    var i := 0;
    while i < |rows|
      invariant 0 <= i <= |rows| && drafts == RetentionDrafts(policy, rows[..i], exact, now)
    {
      hide Expired, RetentionDraft;
      assert rows[..i + 1][..i] == rows[..i];
      if rows[i].id !in exact && Expired(policy, rows[i], now) { drafts := drafts + [RetentionDraft(policy, rows[i])]; }
      i := i + 1;
    }
    assert rows[..i] == rows;
  }

  /** `exact_groups`: the rows by group, and the keys as they come up. */
  method GroupRows(rows: seq<Row>) returns (groups: map<Key, seq<Row>>, order: seq<Key>)
    ensures order == Groups(rows) && (forall k :: k in groups <==> k in order) && forall k :: k in groups ==> groups[k] == Members(rows, k)
  {
    groups, order := map[], [];
    var i := 0;
    while i < |rows|
      invariant 0 <= i <= |rows|
      invariant order == Groups(rows[..i]) && forall k :: k in groups <==> k in order
      invariant forall k :: k in groups ==> groups[k] == Members(rows[..i], k)
      invariant forall k :: k !in groups ==> Members(rows[..i], k) == []
    {
      hide GroupKey, Members, Groups;
      GroupsStep(rows, i);
      var key := GroupKey(rows[i]);
      if key !in groups { order := order + [key]; }
      groups := groups[key := (if key in groups then groups[key] else []) + [rows[i]]];
      i := i + 1;
    }
    assert rows[..i] == rows;
  }

  /** What one more row adds. */
  lemma GroupsStep(rows: seq<Row>, i: nat)
    requires i < |rows|
    ensures var key := GroupKey(rows[i]);
      && Groups(rows[..i + 1]) == (if key in Groups(rows[..i]) then Groups(rows[..i]) else Groups(rows[..i]) + [key])
      && forall k :: Members(rows[..i + 1], k) == Members(rows[..i], k) + (if key == k then [rows[i]] else [])
  {
    hide GroupKey;
    assert rows[..i + 1][..i] == rows[..i];
  }

  lemma SortedKeysKnown(order: seq<Key>)
    ensures forall k :: k in SortBy(Itself, order) <==> k in order
  {
    SortByElements(Itself, order);
    forall k ensures k in SortBy(Itself, order) <==> k in order {
      assert k in multiset(SortBy(Itself, order)) <==> k in multiset(order);
    }
  }
}
