// The analysis does not depend on the order of its input, and its drafts are
// disjoint and complete.
module ConsolidationAnalysisTheorems {
  import opened Utf8
  import opened KeySort
  import opened ConsolidationAnalysis
  import opened Wrappers

  // ---------------------------------------------------------------- the order of the anchors

  lemma {:induction false} FilterCounts(project: Text, app: Text, rows: seq<Row>, r: Row)
    ensures multiset(Filter(project, app, rows))[r] == if Considered(project, app, r) then multiset(rows)[r] else 0
  {
    hide Considered;
    if rows != [] {
      assert rows == [rows[0]] + rows[1..];
      FilterCounts(project, app, rows[1..], r);
    }
  }

  lemma FilterSame(project: Text, app: Text, a: seq<Row>, b: seq<Row>)
    requires multiset(a) == multiset(b)
    ensures multiset(Filter(project, app, a)) == multiset(Filter(project, app, b))
  {
    forall r ensures multiset(Filter(project, app, a))[r] == multiset(Filter(project, app, b))[r] {
      FilterCounts(project, app, a, r);
      FilterCounts(project, app, b, r);
    }
  }

  lemma {:induction false} FilterDistinct(project: Text, app: Text, rows: seq<Row>)
    requires KeysDiffer(IdKey, rows)
    ensures KeysDiffer(IdKey, Filter(project, app, rows)) && forall r :: r in Filter(project, app, rows) <==> r in rows && Considered(project, app, r)
  {
    hide Considered;
    if rows != [] {
      FilterDistinct(project, app, rows[1..]);
      var rest := Filter(project, app, rows[1..]);
      forall j | 0 <= j < |rest| ensures IdKey(rows[0]) != IdKey(rest[j]) {
        assert rest[j] in rows[1..];
      }
    }
  }

  /** The eligible rows are those considered, by ascending id. */
  lemma EligibleIs(project: Text, app: Text, rows: seq<Row>)
    requires KeysDiffer(IdKey, rows)
    ensures var es := Eligible(project, app, rows);
      KeysAscend(IdKey, es) && forall r :: r in es <==> r in rows && Considered(project, app, r)
  {
    FilterDistinct(project, app, rows);
    hide Considered, KeysAscend, Filter;
    SortByIs(IdKey, Filter(project, app, rows));
    forall r ensures r in Eligible(project, app, rows) <==> r in Filter(project, app, rows) {
      assert r in multiset(Eligible(project, app, rows)) <==> r in multiset(Filter(project, app, rows));
    }
  }

  /** The same anchors in another order give the same proposals. */
  lemma OrderDoesNotMatter(project: Text, app: Text, policy: Policy, a: seq<Row>, b: seq<Row>, now: int)
    requires KeysDiffer(IdKey, a) && multiset(a) == multiset(b)
    ensures Analyzed(project, app, policy, a, now) == Analyzed(project, app, policy, b, now)
  {
    hide FoundDrafts;
    DifferSameMultiset(IdKey, a, b);
    FilterDistinct(project, app, a);
    FilterDistinct(project, app, b);
    FilterSame(project, app, a, b);
    SortByIs(IdKey, Filter(project, app, a));
    SortByIs(IdKey, Filter(project, app, b));
    AscendingUnique(IdKey, Eligible(project, app, a), Eligible(project, app, b));
  }

  // ---------------------------------------------------------------- the canonical row

  lemma BeforeTransitive(a: Row, b: Row, c: Row)
    requires CanonicalBefore(a, b) && CanonicalBefore(b, c)
    ensures CanonicalBefore(a, c)
  {
    if Less(a.id, b.id) && Less(b.id, c.id) { LessTransitive(a.id, b.id, c.id); }
  }

  lemma BeforeTotal(a: Row, b: Row)
    requires a.id != b.id
    ensures CanonicalBefore(a, b) || CanonicalBefore(b, a)
  {
    LessTotal(a.id, b.id);
  }

  /** The least of rows with different ids is before all others. */
  lemma {:induction false} LeastIs(rows: seq<Row>)
    requires rows != [] && KeysDiffer(IdKey, rows)
    ensures Least(rows) in rows && forall r :: r in rows && r != Least(rows) ==> CanonicalBefore(Least(rows), r)
  {
    hide CanonicalBefore;
    if |rows| > 1 {
      var init, last := rows[..|rows| - 1], rows[|rows| - 1];
      LeastIs(init);
      assert rows == init + [last];
      var k :| 0 <= k < |init| && init[k] == Least(init);
      assert IdKey(rows[k]) != IdKey(rows[|rows| - 1]);
      BeforeTotal(Least(init), last);
      if CanonicalBefore(last, Least(init)) {
        forall r | r in rows && r != last ensures CanonicalBefore(last, r) {
          if r != Least(init) { BeforeTransitive(last, Least(init), r); }
        }
      }
    }
  }

  // ---------------------------------------------------------------- groups

  lemma {:induction false} MembersAre(rows: seq<Row>, key: Key)
    requires KeysAscend(IdKey, rows)
    ensures KeysAscend(IdKey, Members(rows, key)) && forall r :: r in Members(rows, key) <==> r in rows && GroupKey(r) == key
  {
    hide GroupKey, KeyLess;
    if rows != [] {
      var init, last := rows[..|rows| - 1], rows[|rows| - 1];
      MembersAre(init, key);
      var members := Members(init, key);
      forall i | 0 <= i < |members| ensures KeyLess(IdKey(members[i]), IdKey(last)) {
        assert members[i] in init;
      }
    }
  }

  lemma {:induction false} GroupsAre(rows: seq<Row>)
    ensures KeysDiffer(Itself, Groups(rows)) && forall k :: k in Groups(rows) <==> exists r :: r in rows && GroupKey(r) == k
  {
    hide GroupKey;
    if rows != [] {
      var init, last := rows[..|rows| - 1], rows[|rows| - 1];
      GroupsAre(init);
      assert rows == init + [last];
      assert GroupKey(last) in Groups(rows);
      forall k | k in Groups(rows) ensures exists r :: r in rows && GroupKey(r) == k {
        if k != GroupKey(last) {
          var r :| r in init && GroupKey(r) == k;
        } else {
          assert last in rows && GroupKey(last) == k;
        }
      }
      forall r | r in rows ensures GroupKey(r) in Groups(rows) { assert r in init || r == last; }
    }
  }

  // ---------------------------------------------------------------- drafts

  ghost predicate IsExact(policy: Policy, rows: seq<Row>, keys: seq<Key>, d: Draft) {
    exists k :: k in keys && Sized(Members(rows, k)) && d == ExactDraft(policy, Members(rows, k))
  }

  ghost predicate IsRetention(policy: Policy, rows: seq<Row>, exact: set<Text>, now: int, d: Draft) {
    exists r :: r in rows && r.id !in exact && Expired(policy, r, now) && d == RetentionDraft(policy, r)
  }

  predicate Disjoint(d: Draft, e: Draft) { forall s :: s in d.sources ==> s !in e.sources }

  ghost predicate AllDisjoint(drafts: seq<Draft>) {
    && (forall i :: 0 <= i < |drafts| ==> drafts[i].sources != [])
    && forall i, j :: 0 <= i < j < |drafts| ==> Disjoint(drafts[i], drafts[j])
  }

  /** A source of a group of the right size. */
  ghost predicate InExact(rows: seq<Row>, keys: seq<Key>, id: Text) {
    exists k :: k in keys && Sized(Members(rows, k)) && id in Ids(Members(rows, k))
  }

  lemma {:induction false} ExactDraftsAre(policy: Policy, rows: seq<Row>, keys: seq<Key>)
    ensures forall d :: d in ExactDrafts(policy, rows, keys) <==> IsExact(policy, rows, keys, d)
    ensures forall id :: id in ExactIds(rows, keys) <==> InExact(rows, keys, id)
  {
    hide Members, ExactDraft;
    if keys != [] {
      var init, last := keys[..|keys| - 1], keys[|keys| - 1];
      ExactDraftsAre(policy, rows, init);
      assert keys == init + [last];
      forall d ensures d in ExactDrafts(policy, rows, keys) <==> IsExact(policy, rows, keys, d) {
        assert IsExact(policy, rows, keys, d) <==>
          IsExact(policy, rows, init, d) || (Sized(Members(rows, last)) && d == ExactDraft(policy, Members(rows, last)));
      }
      forall id ensures id in ExactIds(rows, keys) <==> InExact(rows, keys, id) {
        assert InExact(rows, keys, id) <==> InExact(rows, init, id) || (Sized(Members(rows, last)) && id in Ids(Members(rows, last)));
      }
    }
  }

  lemma {:induction false} RetentionDraftsAre(policy: Policy, rows: seq<Row>, exact: set<Text>, now: int)
    ensures forall d :: d in RetentionDrafts(policy, rows, exact, now) <==> IsRetention(policy, rows, exact, now, d)
  {
    hide Expired, RetentionDraft;
    if rows != [] {
      var init, last := rows[..|rows| - 1], rows[|rows| - 1];
      RetentionDraftsAre(policy, init, exact, now);
      assert rows == init + [last];
      forall d ensures d in RetentionDrafts(policy, rows, exact, now) <==> IsRetention(policy, rows, exact, now, d) {
        assert IsRetention(policy, rows, exact, now, d) <==>
          IsRetention(policy, init, exact, now, d) || (last.id !in exact && Expired(policy, last, now) && d == RetentionDraft(policy, last));
      }
    }
  }

  /** Rows with different ids: a source belongs to one row. */
  lemma SourceRow(rows: seq<Row>, a: Row, b: Row)
    requires KeysDiffer(IdKey, rows) && a in rows && b in rows && a.id == b.id
    ensures a == b
  {
    var i :| 0 <= i < |rows| && rows[i] == a;
    var j :| 0 <= j < |rows| && rows[j] == b;
    assert IdKey(rows[i]) == IdKey(rows[j]);
    if i < j { assert false; } else if j < i { assert false; }
  }

  lemma SourcesAre(policy: Policy, rows: seq<Row>, key: Key, s: Text)
    requires KeysAscend(IdKey, rows) && Members(rows, key) != []
    ensures s in ExactDraft(policy, Members(rows, key)).sources <==> exists r :: r in rows && GroupKey(r) == key && r.id == s
  {
    MembersAre(rows, key);
    hide GroupKey, KeysAscend, Members, Least, TypeName;
    var members := Members(rows, key);
    if s in Ids(members) {
      var i :| 0 <= i < |members| && Ids(members)[i] == s;
      assert members[i] in rows;
    }
    if r :| r in rows && GroupKey(r) == key && r.id == s {
      var i :| 0 <= i < |members| && members[i] == r;
      assert Ids(members)[i] == s;
    }
  }

  lemma ExactApart(policy: Policy, rows: seq<Row>, a: Key, b: Key)
    requires KeysAscend(IdKey, rows) && a != b && Members(rows, a) != [] && Members(rows, b) != []
    ensures Disjoint(ExactDraft(policy, Members(rows, a)), ExactDraft(policy, Members(rows, b)))
  {
    AscendDiffer(IdKey, rows);
    hide ExactDraft, Members, GroupKey, KeysAscend, KeysDiffer;
    var d, e := ExactDraft(policy, Members(rows, a)), ExactDraft(policy, Members(rows, b));
    forall s | s in d.sources ensures s !in e.sources {
      SourcesAre(policy, rows, a, s);
      SourcesAre(policy, rows, b, s);
      var r :| r in rows && GroupKey(r) == a && r.id == s;
      if q :| q in rows && GroupKey(q) == b && q.id == s { SourceRow(rows, r, q); }
    }
  }

  lemma {:induction false} ExactDisjoint(policy: Policy, rows: seq<Row>, keys: seq<Key>)
    requires KeysAscend(IdKey, rows) && KeysDiffer(Itself, keys)
    ensures AllDisjoint(ExactDrafts(policy, rows, keys))
  {
    hide Members, GroupKey, KeysAscend, Disjoint;
    if keys != [] {
      var init, last := keys[..|keys| - 1], keys[|keys| - 1];
      ExactDisjoint(policy, rows, init);
      ExactDraftsAre(policy, rows, init);
      var before := ExactDrafts(policy, rows, init);
      if Sized(Members(rows, last)) {
        forall i | 0 <= i < |before| ensures Disjoint(before[i], ExactDraft(policy, Members(rows, last))) {
          assert IsExact(policy, rows, init, before[i]);
          var k :| k in init && Sized(Members(rows, k)) && before[i] == ExactDraft(policy, Members(rows, k));
          var n :| 0 <= n < |init| && init[n] == k;
          assert Itself(keys[n]) != Itself(keys[|keys| - 1]);
          ExactApart(policy, rows, k, last);
        }
      }
    }
  }

  lemma {:induction false} RetentionDisjoint(policy: Policy, rows: seq<Row>, exact: set<Text>, now: int)
    requires KeysDiffer(IdKey, rows)
    ensures AllDisjoint(RetentionDrafts(policy, rows, exact, now))
  {
    hide Expired, TypeName, Less;
    if rows != [] {
      var init, last := rows[..|rows| - 1], rows[|rows| - 1];
      RetentionDisjoint(policy, init, exact, now);
      RetentionDraftsAre(policy, init, exact, now);
      var before := RetentionDrafts(policy, init, exact, now);
      hide IsRetention, RetentionDraft, Disjoint;
      forall i | 0 <= i < |before| ensures Disjoint(before[i], RetentionDraft(policy, last)) {
        RetentionApart(policy, rows, exact, now, before[i]);
      }
    }
  }

  lemma RetentionApart(policy: Policy, rows: seq<Row>, exact: set<Text>, now: int, d: Draft)
    requires rows != [] && KeysDiffer(IdKey, rows) && IsRetention(policy, rows[..|rows| - 1], exact, now, d)
    ensures Disjoint(d, RetentionDraft(policy, rows[|rows| - 1]))
  {
    hide Expired, TypeName;
    var r :| r in rows[..|rows| - 1] && d == RetentionDraft(policy, r);
    var n :| 0 <= n < |rows| - 1 && rows[n] == r;
    assert IdKey(rows[n]) != IdKey(rows[|rows| - 1]);
  }

  /** No exact member yields a retention draft, and no two drafts share a source. */
  lemma FoundDisjoint(policy: Policy, rows: seq<Row>, now: int)
    requires KeysAscend(IdKey, rows)
    ensures AllDisjoint(FoundDrafts(policy, rows, now))
  {
    hide Members, GroupKey, KeysAscend, KeysDiffer, ExactDrafts, RetentionDrafts, ExactIds, Groups, SortBy, Expired;
    GroupsAre(rows);
    SortByIs(Itself, Groups(rows));
    var keys := SortBy(Itself, Groups(rows));
    AscendDiffer(Itself, keys);
    AscendDiffer(IdKey, rows);
    var exact := ExactIds(rows, keys);
    ExactDisjoint(policy, rows, keys);
    RetentionDisjoint(policy, rows, exact, now);
    ExactDraftsAre(policy, rows, keys);
    RetentionDraftsAre(policy, rows, exact, now);
    var es, fs := ExactDrafts(policy, rows, keys), RetentionDrafts(policy, rows, exact, now);
    forall i, j | 0 <= i < |es| && 0 <= j < |fs| ensures Disjoint(es[i], fs[j]) { ExactNotRetained(policy, rows, keys, exact, now, es[i], fs[j]); }
    hide Disjoint;
  }

  lemma ExactNotRetained(policy: Policy, rows: seq<Row>, keys: seq<Key>, exact: set<Text>, now: int, d: Draft, e: Draft)
    requires IsExact(policy, rows, keys, d) && IsRetention(policy, rows, exact, now, e)
    requires forall id :: id in exact <==> InExact(rows, keys, id)
    ensures Disjoint(d, e)
  {
    hide Members, Expired, Least, TypeName;
    var k :| k in keys && Sized(Members(rows, k)) && d == ExactDraft(policy, Members(rows, k));
    forall s | s in d.sources ensures s in exact { assert s in Ids(Members(rows, k)); }
  }

  // ---------------------------------------------------------------- the analysis

  /** The row of a group that is before all others. */
  ghost predicate IsCanonical(rows: seq<Row>, key: Key, id: Option<Text>) {
    exists c :: c in rows && GroupKey(c) == key && id == Some(c.id) && BeforeGroup(rows, key, c)
  }

  ghost predicate BeforeGroup(rows: seq<Row>, key: Key, c: Row) {
    forall r :: r in rows && GroupKey(r) == key && r != c ==> CanonicalBefore(c, r)
  }

  /** A group of two to a hundred rows, with its draft: all their ids, ascending, and the row that is before all others. */
  ghost predicate ExactGroup(policy: Policy, rows: seq<Row>, key: Key, d: Draft) {
    && d.kind == ExactDuplicate && 2 <= |d.sources| <= MAX_GROUP && d.safe == policy.exactSafe
    && (forall i, j :: 0 <= i < j < |d.sources| ==> Less(d.sources[i], d.sources[j]))
    && (forall s :: s in d.sources <==> exists r :: r in rows && GroupKey(r) == key && r.id == s)
    && IsCanonical(rows, key, d.canonical)
  }

  lemma SmallKeyLess(a: Text, b: Text)
    requires KeyLess([a], [b])
    ensures Less(a, b)
  {
  }

  lemma ExactGroupIs(policy: Policy, rows: seq<Row>, key: Key)
    requires KeysAscend(IdKey, rows) && Sized(Members(rows, key))
    ensures ExactGroup(policy, rows, key, ExactDraft(policy, Members(rows, key)))
  {
    hide GroupKey, CanonicalBefore, Members, Least, KeyLess, Less, TypeName;
    var members := Members(rows, key);
    var d := ExactDraft(policy, members);
    MembersAre(rows, key);
    CanonicalIs(policy, rows, key);
    forall s ensures s in d.sources <==> exists r :: r in rows && GroupKey(r) == key && r.id == s { SourcesAre(policy, rows, key, s); }
    forall i, j | 0 <= i < j < |d.sources| ensures Less(d.sources[i], d.sources[j]) {
      assert KeyLess(IdKey(members[i]), IdKey(members[j]));
      SmallKeyLess(members[i].id, members[j].id);
    }
    hide KeysAscend;
  }

  lemma CanonicalIs(policy: Policy, rows: seq<Row>, key: Key)
    requires KeysAscend(IdKey, rows) && Members(rows, key) != []
    ensures IsCanonical(rows, key, ExactDraft(policy, Members(rows, key)).canonical)
  {
    MembersAre(rows, key);
    AscendDiffer(IdKey, Members(rows, key));
    LeastIs(Members(rows, key));
    hide GroupKey, CanonicalBefore, Members, Least, TypeName, KeysAscend, KeysDiffer;
    assert BeforeGroup(rows, key, Least(Members(rows, key)));
  }

  /** Whether the group of a row gets an exact draft. */
  ghost predicate InSizedGroup(rows: seq<Row>, r: Row) { Sized(Members(rows, GroupKey(r))) }

  /** The draft that a row is part of, if it is part of one. */
  function DraftOf(policy: Policy, rows: seq<Row>, r: Row): Draft {
    var members := Members(rows, GroupKey(r));
    if Sized(members) then ExactDraft(policy, members) else RetentionDraft(policy, r)
  }

  /** A row is part of its draft exactly if its group is of the right size or it is past its retention. */
  ghost predicate Complete(policy: Policy, rows: seq<Row>, now: int, drafts: seq<Draft>) {
    && (forall r :: r in rows ==> (DraftOf(policy, rows, r) in drafts <==> InSizedGroup(rows, r) || Expired(policy, r, now)))
    && forall d :: d in drafts ==> exists r :: r in rows && d == DraftOf(policy, rows, r)
  }

  lemma CompleteSame(policy: Policy, rows: seq<Row>, now: int, a: seq<Draft>, b: seq<Draft>)
    requires Complete(policy, rows, now, a) && multiset(a) == multiset(b)
    ensures Complete(policy, rows, now, b)
  {
    hide DraftOf, InSizedGroup, Expired;
    forall d ensures d in a <==> d in b { assert d in multiset(a) <==> d in multiset(b); }
  }

  /**
   * The proposals are the first of the drafts in the order of kind and sources.  The drafts have disjoint sources; there
   * is one for each exact group, and one for each other eligible row past its retention, and no more.
   */
  lemma AnalysisIs(project: Text, app: Text, policy: Policy, anchors: seq<Row>, now: int)
    requires KeysDiffer(IdKey, anchors)
    ensures var es, all := Eligible(project, app, anchors), AllDrafts(project, app, policy, anchors, now);
      && AllDisjoint(all) && KeysAscend(DraftKey, all) && Complete(policy, es, now, all)
      && (forall r :: r in es && InSizedGroup(es, r) ==> ExactGroup(policy, es, GroupKey(r), DraftOf(policy, es, r)))
      && Analyzed(project, app, policy, anchors, now) <= all
  {
    hide Members, KeysAscend, FoundDrafts, SortBy, Eligible, ExactDraft, RetentionDraft, GroupKey, ExactGroup, AllDisjoint, Complete;
    var es := Eligible(project, app, anchors);
    EligibleIs(project, app, anchors);
    FoundDisjoint(policy, es, now);
    SortedDrafts(FoundDrafts(policy, es, now));
    FoundAre(policy, es, now);
    CompleteSame(policy, es, now, FoundDrafts(policy, es, now), AllDrafts(project, app, policy, anchors, now));
    forall r | r in es && InSizedGroup(es, r) ensures ExactGroup(policy, es, GroupKey(r), DraftOf(policy, es, r)) {
      ExactGroupIs(policy, es, GroupKey(r));
    }
  }

  /** Disjoint drafts have different keys, so sorting them keeps them apart. */
  lemma SortedDrafts(found: seq<Draft>)
    requires AllDisjoint(found)
    ensures var all := SortBy(DraftKey, found); AllDisjoint(all) && KeysAscend(DraftKey, all) && multiset(all) == multiset(found)
  {
    assert KeysDiffer(DraftKey, found) by { DraftKeysDiffer(found); }
    hide AllDisjoint, KeysAscend, KeysDiffer;
    SortByIs(DraftKey, found);
    AscendDiffer(DraftKey, SortBy(DraftKey, found));
    StillDisjoint(found, SortBy(DraftKey, found));
  }

  lemma DraftKeysDiffer(found: seq<Draft>)
    requires AllDisjoint(found)
    ensures KeysDiffer(DraftKey, found)
  {
    forall i, j | 0 <= i < j < |found| ensures DraftKey(found[i]) != DraftKey(found[j]) {
      assert found[i].sources[0] in found[i].sources && found[i].sources[0] !in found[j].sources;
      assert DraftKey(found[i])[1..] == found[i].sources && DraftKey(found[j])[1..] == found[j].sources;
    }
  }

  lemma StillDisjoint(found: seq<Draft>, all: seq<Draft>)
    requires AllDisjoint(found) && multiset(all) == multiset(found) && KeysDiffer(DraftKey, all)
    ensures AllDisjoint(all)
  {
    hide DraftKey;
    forall i | 0 <= i < |all| ensures all[i].sources != [] { assert all[i] in multiset(found); }
    forall i, j | 0 <= i < j < |all| ensures Disjoint(all[i], all[j]) {
      assert all[i] in multiset(found) && all[j] in multiset(found);
      var a :| 0 <= a < |found| && found[a] == all[i];
      var b :| 0 <= b < |found| && found[b] == all[j];
      assert DraftKey(all[i]) != DraftKey(all[j]);
      assert Disjoint(found[a], found[b]) || Disjoint(found[b], found[a]);
    }
  }

  /** The found drafts, said without the keys and the exact ids of the algorithm. */
  lemma FoundAre(policy: Policy, rows: seq<Row>, now: int)
    requires KeysAscend(IdKey, rows)
    ensures Complete(policy, rows, now, FoundDrafts(policy, rows, now))
  {
    var keys := SortBy(Itself, Groups(rows));
    var exact := ExactIds(rows, keys);
    GroupsAre(rows);
    SortedKeysKnown(Groups(rows));
    ExactDraftsAre(policy, rows, keys);
    RetentionDraftsAre(policy, rows, exact, now);
    hide Members, GroupKey, KeysAscend, KeysDiffer, ExactDrafts, RetentionDrafts, ExactIds, Groups, SortBy, Expired;
    forall r | r in rows ensures r.id in exact <==> InSizedGroup(rows, r) { ExactIff(rows, keys, r); }
    var found := FoundDrafts(policy, rows, now);
    forall r | r in rows ensures DraftOf(policy, rows, r) in found <==> InSizedGroup(rows, r) || Expired(policy, r, now) {
      assert GroupKey(r) in keys;
      if InSizedGroup(rows, r) { assert IsExact(policy, rows, keys, DraftOf(policy, rows, r)); } else { RetainedIff(policy, rows, keys, exact, now, r); }
    }
    forall d | d in found ensures exists r :: r in rows && d == DraftOf(policy, rows, r) {
      if IsExact(policy, rows, keys, d) {
        var k :| k in keys && Sized(Members(rows, k)) && d == ExactDraft(policy, Members(rows, k));
        var r :| r in rows && GroupKey(r) == k;
      } else {
        var r :| r in rows && r.id !in exact && d == RetentionDraft(policy, r);
      }
    }
  }

  lemma ExactIff(rows: seq<Row>, keys: seq<Key>, r: Row)
    requires KeysAscend(IdKey, rows) && r in rows && GroupKey(r) in keys
    ensures InExact(rows, keys, r.id) <==> InSizedGroup(rows, r)
  {
    AscendDiffer(IdKey, rows);
    MembersAre(rows, GroupKey(r));
    hide GroupKey, KeysAscend, KeysDiffer, Members;
    if InSizedGroup(rows, r) {
      var i :| 0 <= i < |Members(rows, GroupKey(r))| && Members(rows, GroupKey(r))[i] == r;
      assert Ids(Members(rows, GroupKey(r)))[i] == r.id;
    }
    if InExact(rows, keys, r.id) {
      var k :| k in keys && Sized(Members(rows, k)) && r.id in Ids(Members(rows, k));
      MembersAre(rows, k);
      var i :| 0 <= i < |Members(rows, k)| && Ids(Members(rows, k))[i] == r.id;
      SourceRow(rows, Members(rows, k)[i], r);
    }
  }

  lemma RetainedIff(policy: Policy, rows: seq<Row>, keys: seq<Key>, exact: set<Text>, now: int, r: Row)
    requires KeysAscend(IdKey, rows) && r in rows && (r.id in exact <==> InSizedGroup(rows, r))
    ensures IsRetention(policy, rows, exact, now, RetentionDraft(policy, r)) <==> !InSizedGroup(rows, r) && Expired(policy, r, now)
    ensures !IsExact(policy, rows, keys, RetentionDraft(policy, r))
  {
    AscendDiffer(IdKey, rows);
    hide InSizedGroup, Expired, KeysAscend, KeysDiffer, Members, TypeName;
    if IsRetention(policy, rows, exact, now, RetentionDraft(policy, r)) {
      var q :| q in rows && q.id !in exact && Expired(policy, q, now) && RetentionDraft(policy, r) == RetentionDraft(policy, q);
      assert RetentionDraft(policy, r).sources[0] == RetentionDraft(policy, q).sources[0];
      SourceRow(rows, q, r);
    }
  }
}
