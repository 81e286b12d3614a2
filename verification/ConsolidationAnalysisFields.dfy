// What the analysis proposes, said of the fields of the rows: which rows are
// duplicates of each other, which of them stays, and which rows are too old.
module ConsolidationAnalysisFields {
  import opened Utf8
  import opened KeySort
  import opened ConsolidationAnalysis
  import opened ConsolidationAnalysisTheorems
  import opened Wrappers

  // ---------------------------------------------------------------- rows

  predicate InScope(project: Text, app: Text, r: Row) {
    r.project == project && r.app == app && !r.deleted && r.active && !r.pinned && r.hash.Some?
  }

  /** A row without a type counts as one of unknown type. */
  function NameOf(r: Row): Text {
    match r.kind
    case None => Ascii("unknown")
    case Some(name) => if |name| == 0 then Ascii("unknown") else name
  }

  /** The same content, for the same user and agent, of the same type. */
  predicate Alike(a: Row, b: Row) { a.hash == b.hash && a.user == b.user && a.agent == b.agent && NameOf(a) == NameOf(b) }

  /** Not from an automatic source, then of higher confidence, then longer, then older, then with the smaller id. */
  predicate Preferred(a: Row, b: Row) {
    || (!a.auto && b.auto)
    || (a.auto == b.auto && a.confidence > b.confidence)
    || (a.auto == b.auto && a.confidence == b.confidence && a.length > b.length)
    || (a.auto == b.auto && a.confidence == b.confidence && a.length == b.length && a.created < b.created)
    || (a.auto == b.auto && a.confidence == b.confidence && a.length == b.length && a.created == b.created && Less(a.id, b.id))
  }

  /** Longer ago than its type is kept. */
  predicate TooOld(policy: Policy, r: Row, now: int) {
    && NameOf(r) in policy.retention && policy.retention[NameOf(r)].days.Some?
    && now > r.created + policy.retention[NameOf(r)].days.value * 24 * 60 * 60
  }

  lemma KeyParts(r: Row)
    ensures var k := GroupKey(r);
      |k| == 5 && k[3] == NameOf(r) && k[4] == (if r.hash.Some? then r.hash.value else []) && k[..3] == Subject(r)
  {
  }

  lemma SubjectIff(a: Row, b: Row)
    ensures Subject(a) == Subject(b) <==> a.user == b.user && a.agent == b.agent
  {
    assert |Ascii("user_agent")| == 10 && |Ascii("user")| == 4 && |Ascii("agent")| == 5 && |Ascii("unscoped")| == 8;
    assert Subject(a)[0] == Subject(b)[0] || Subject(a) != Subject(b);
    assert Subject(a)[1] == Subject(b)[1] || Subject(a) != Subject(b);
    assert Subject(a)[2] == Subject(b)[2] || Subject(a) != Subject(b);
  }

  lemma AlikeIff(a: Row, b: Row)
    requires a.hash.Some? && b.hash.Some?
    ensures GroupKey(a) == GroupKey(b) <==> Alike(a, b)
  {
    hide GroupKey, Subject;
    KeyParts(a);
    KeyParts(b);
    SubjectIff(a, b);
    assert GroupKey(a) == GroupKey(a)[..3] + [GroupKey(a)[3], GroupKey(a)[4]];
    assert GroupKey(b) == GroupKey(b)[..3] + [GroupKey(b)[3], GroupKey(b)[4]];
  }

  lemma PreferredIs(a: Row, b: Row)
    ensures CanonicalBefore(a, b) <==> Preferred(a, b)
  {
    hide Less;
  }

  lemma TooOldIs(policy: Policy, r: Row, now: int)
    ensures Expired(policy, r, now) <==> TooOld(policy, r, now)
  {
    assert TypeName(r) == NameOf(r);
  }

  lemma InScopeIs(project: Text, app: Text, r: Row)
    ensures Considered(project, app, r) <==> InScope(project, app, r)
  {
  }

  /** The rows in scope that are like this one, itself included. */
  ghost function Likes(project: Text, app: Text, anchors: seq<Row>, r: Row): set<Row> {
    set x | x in anchors && InScope(project, app, x) && Alike(x, r)
  }

  lemma {:induction false} DistinctSize(rows: seq<Row>)
    requires forall i, j :: 0 <= i < j < |rows| ==> rows[i] != rows[j]
    ensures |set x | x in rows| == |rows|
  {
    if rows != [] {
      var init, last := rows[..|rows| - 1], rows[|rows| - 1];
      DistinctSize(init);
      assert (set x | x in rows) == (set x | x in init) + {last};
      assert last !in init;
    }
  }

  /** A group gets an exact draft if two to a hundred rows are alike. */
  lemma SizedIff(project: Text, app: Text, anchors: seq<Row>, r: Row)
    requires KeysDiffer(IdKey, anchors) && r in anchors && InScope(project, app, r)
    ensures InSizedGroup(Eligible(project, app, anchors), r) <==> 2 <= |Likes(project, app, anchors, r)| <= 100
  {
    var es := Eligible(project, app, anchors);
    hide Eligible, Members, GroupKey, Considered, InScope, KeysAscend, KeysDiffer, Alike;
    EligibleIs(project, app, anchors);
    MembersAre(es, GroupKey(r));
    var members := Members(es, GroupKey(r));
    AscendDiffer(IdKey, members);
    assert forall i, j :: 0 <= i < j < |members| ==> members[i] != members[j] by { IdsDiffer(members); }
    DistinctSize(members);
    forall x ensures x in members <==> x in Likes(project, app, anchors, r) {
      InScopeIs(project, app, x);
      InScopeIs(project, app, r);
      if InScope(project, app, x) {
        assert x.hash.Some? && r.hash.Some? by { ScopedHash(project, app, x); ScopedHash(project, app, r); }
        AlikeIff(x, r);
      }
    }
    assert (set x | x in members) == Likes(project, app, anchors, r);
  }

  lemma IdsDiffer(rows: seq<Row>)
    requires KeysDiffer(IdKey, rows)
    ensures forall i, j :: 0 <= i < j < |rows| ==> rows[i] != rows[j]
  {
    forall i, j | 0 <= i < j < |rows| ensures rows[i] != rows[j] { assert IdKey(rows[i]) != IdKey(rows[j]); }
  }

  lemma ScopedHash(project: Text, app: Text, r: Row)
    requires InScope(project, app, r)
    ensures r.hash.Some?
  {
  }

  // ---------------------------------------------------------------- drafts

  /** An exact draft: its sources are the rows like one of them, ascending, and the preferred one stays. */
  ghost predicate ExactFor(project: Text, app: Text, policy: Policy, anchors: seq<Row>, r: Row, d: Draft) {
    && d.kind == ExactDuplicate && d.safe == policy.exactSafe
    && (forall i, j :: 0 <= i < j < |d.sources| ==> Less(d.sources[i], d.sources[j]))
    && (forall s :: s in d.sources <==> exists x :: x in Likes(project, app, anchors, r) && x.id == s)
    && exists c :: c in Likes(project, app, anchors, r) && d.canonical == Some(c.id)
         && forall x :: x in Likes(project, app, anchors, r) && x != c ==> Preferred(c, x)
  }

  /** A retention draft: of one row, which nothing replaces. */
  ghost predicate RetainedFor(policy: Policy, r: Row, d: Draft) {
    && d.kind == RetentionExpired && d.sources == [r.id] && d.canonical == None
    && d.safe == (policy.retentionSafe && NameOf(r) in policy.retention && policy.retention[NameOf(r)].shadow)
  }

  ghost predicate IsDraft(project: Text, app: Text, policy: Policy, anchors: seq<Row>, r: Row, d: Draft) {
    && InScope(project, app, r)
    && if 2 <= |Likes(project, app, anchors, r)| <= 100 then ExactFor(project, app, policy, anchors, r, d) else RetainedFor(policy, r, d)
  }

  /** Exact duplicates first, then by sources. */
  predicate Earlier(d: Draft, e: Draft) {
    || (d.kind == ExactDuplicate && e.kind == RetentionExpired)
    || (d.kind == e.kind && KeyLess(d.sources, e.sources))
  }

  lemma EarlierIs(d: Draft, e: Draft)
    requires KeyLess(DraftKey(d), DraftKey(e))
    ensures Earlier(d, e)
  {
    var a, b := Ascii("EXACT_DUPLICATE"), Ascii("RETENTION_EXPIRED");
    assert DraftKey(d)[1..] == d.sources && DraftKey(e)[1..] == e.sources;
    assert a[0] == 'E' as int && b[0] == 'R' as int;
    assert !Less(b, a);
  }

  lemma AllEarlier(all: seq<Draft>)
    requires KeysAscend(DraftKey, all)
    ensures forall i, j :: 0 <= i < j < |all| ==> Earlier(all[i], all[j])
  {
    hide Earlier;
    forall i, j | 0 <= i < j < |all| ensures Earlier(all[i], all[j]) { EarlierIs(all[i], all[j]); }
  }

  lemma DraftIs(project: Text, app: Text, policy: Policy, anchors: seq<Row>, r: Row)
    requires KeysDiffer(IdKey, anchors) && r in anchors && InScope(project, app, r)
    ensures var es := Eligible(project, app, anchors); var d := DraftOf(policy, es, r);
      if InSizedGroup(es, r) then ExactFor(project, app, policy, anchors, r, d) else RetainedFor(policy, r, d)
  {
    var es := Eligible(project, app, anchors);
    EligibleIs(project, app, anchors);
    if InSizedGroup(es, r) {
      ExactGroupIs(policy, es, GroupKey(r));
      ExactFields(project, app, policy, anchors, r, DraftOf(policy, es, r));
    } else {
      assert TypeName(r) == NameOf(r);
    }
  }

  lemma ExactFields(project: Text, app: Text, policy: Policy, anchors: seq<Row>, r: Row, d: Draft)
    requires KeysDiffer(IdKey, anchors) && r in anchors && InScope(project, app, r)
    requires ExactGroup(policy, Eligible(project, app, anchors), GroupKey(r), d)
    ensures ExactFor(project, app, policy, anchors, r, d)
  {
    var es := Eligible(project, app, anchors);
    EligibleIs(project, app, anchors);
    hide Eligible, GroupKey, Considered, InScope, KeysAscend, KeysDiffer, Alike, CanonicalBefore, Preferred, Less;
    forall x ensures x in Likes(project, app, anchors, r) <==> x in es && GroupKey(x) == GroupKey(r) {
      InScopeIs(project, app, x);
      InScopeIs(project, app, r);
      if InScope(project, app, x) {
        ScopedHash(project, app, x);
        ScopedHash(project, app, r);
        AlikeIff(x, r);
      }
    }
    hide Likes;
    var c :| c in es && GroupKey(c) == GroupKey(r) && d.canonical == Some(c.id) && BeforeGroup(es, GroupKey(r), c);
    forall x | x in Likes(project, app, anchors, r) && x != c ensures Preferred(c, x) { PreferredIs(c, x); }
  }

  /**
   * The drafts by the fields of the rows.  Rows in scope that are alike, two to a hundred of them, are the sources of one exact
   * draft; a row not among such rows has a retention draft exactly if it is too old; and there are no other drafts.  What is
   * proposed is the first of them, in the order of kind and sources, up to the limit of the policy.
   */
  lemma DraftsAre(project: Text, app: Text, policy: Policy, anchors: seq<Row>, now: int)
    requires KeysDiffer(IdKey, anchors)
    ensures var all, proposed := AllDrafts(project, app, policy, anchors, now), Analyzed(project, app, policy, anchors, now);
      && (forall r :: r in anchors && InScope(project, app, r) && 2 <= |Likes(project, app, anchors, r)| <= 100 ==>
            exists d :: d in all && ExactFor(project, app, policy, anchors, r, d))
      && (forall r :: r in anchors && InScope(project, app, r) && !(2 <= |Likes(project, app, anchors, r)| <= 100) ==>
            ((exists d :: d in all && RetainedFor(policy, r, d)) <==> TooOld(policy, r, now)))
      && (forall d :: d in all ==> exists r :: r in anchors && IsDraft(project, app, policy, anchors, r, d))
      && (forall i, j :: 0 <= i < j < |all| ==> Earlier(all[i], all[j]))
      && proposed <= all && |proposed| == if |all| <= policy.maxProposals then |all| else policy.maxProposals
  {
    var es, all := Eligible(project, app, anchors), AllDrafts(project, app, policy, anchors, now);
    AnalysisIs(project, app, policy, anchors, now);
    EligibleIs(project, app, anchors);
    AllEarlier(all);
    assert |Analyzed(project, app, policy, anchors, now)| == if |all| <= policy.maxProposals then |all| else policy.maxProposals;
    hide AllDrafts, Analyzed, Eligible, ExactGroup, DraftOf, InSizedGroup, InScope, Considered, Likes, ExactFor, RetainedFor, TooOld, Expired, KeysAscend, KeysDiffer, AllDisjoint, Earlier;
    forall r ensures Considered(project, app, r) <==> InScope(project, app, r) { InScopeIs(project, app, r); }
    forall r | r in anchors && InScope(project, app, r)
      ensures InSizedGroup(es, r) <==> 2 <= |Likes(project, app, anchors, r)| <= 100
      ensures var d := DraftOf(policy, es, r); if InSizedGroup(es, r) then ExactFor(project, app, policy, anchors, r, d) else RetainedFor(policy, r, d)
      ensures Expired(policy, r, now) <==> TooOld(policy, r, now)
    {
      SizedIff(project, app, anchors, r);
      DraftIs(project, app, policy, anchors, r);
      TooOldIs(policy, r, now);
    }
    forall r | r in anchors && InScope(project, app, r) && !(2 <= |Likes(project, app, anchors, r)| <= 100)
      ensures (exists d :: d in all && RetainedFor(policy, r, d)) <==> TooOld(policy, r, now)
    {
      if d :| d in all && RetainedFor(policy, r, d) { RetainedOnce(policy, es, r, d, now, all); }
    }
  }

  /** A retention draft with a row's id is the draft of that row. */
  lemma RetainedOnce(policy: Policy, es: seq<Row>, r: Row, d: Draft, now: int, all: seq<Draft>)
    requires Complete(policy, es, now, all) && d in all && RetainedFor(policy, r, d) && r in es && KeysAscend(IdKey, es) && !InSizedGroup(es, r)
    ensures Expired(policy, r, now)
  {
    AscendDiffer(IdKey, es);
    var q :| q in es && d == DraftOf(policy, es, q);
    assert d.kind == RetentionExpired && d.sources[0] == r.id;
    assert q.id == r.id;
    SourceRow(es, q, r);
    hide Expired, Members;
  }

  /** Two rows in scope are sources of one exact draft exactly if they are alike, and not too many are. */
  lemma DuplicatesIff(project: Text, app: Text, policy: Policy, anchors: seq<Row>, now: int, a: Row, b: Row)
    requires KeysDiffer(IdKey, anchors) && a in anchors && b in anchors && a != b && InScope(project, app, a) && InScope(project, app, b)
    ensures (exists d :: d in AllDrafts(project, app, policy, anchors, now) && d.kind == ExactDuplicate && a.id in d.sources && b.id in d.sources)
      <==> Alike(a, b) && 2 <= |Likes(project, app, anchors, a)| <= 100
  {
    DraftsAre(project, app, policy, anchors, now);
    var all := AllDrafts(project, app, policy, anchors, now);
    hide AllDrafts, Analyzed, Alike, InScope, Preferred, TooOld, Earlier;
    if d :| d in all && d.kind == ExactDuplicate && a.id in d.sources && b.id in d.sources {
      var r :| r in anchors && IsDraft(project, app, policy, anchors, r, d);
      SourceLikes(project, app, policy, anchors, r, d, a);
      SourceLikes(project, app, policy, anchors, r, d, b);
      LikesSame(project, app, anchors, r, a);
      LikesSame(project, app, anchors, r, b);
    }
    if Alike(a, b) && 2 <= |Likes(project, app, anchors, a)| <= 100 {
      var d :| d in all && ExactFor(project, app, policy, anchors, a, d);
      assert a in Likes(project, app, anchors, a) && b in Likes(project, app, anchors, a) by { LikesBoth(project, app, anchors, a, b); }
    }
  }

  lemma SourceLikes(project: Text, app: Text, policy: Policy, anchors: seq<Row>, r: Row, d: Draft, a: Row)
    requires KeysDiffer(IdKey, anchors) && a in anchors && r in anchors && InScope(project, app, r)
    requires ExactFor(project, app, policy, anchors, r, d) && a.id in d.sources
    ensures a in Likes(project, app, anchors, r)
  {
    hide Alike, InScope, Preferred;
    var x :| x in Likes(project, app, anchors, r) && x.id == a.id;
    SourceRow(anchors, x, a);
  }

  lemma LikesSame(project: Text, app: Text, anchors: seq<Row>, r: Row, a: Row)
    requires a in Likes(project, app, anchors, r)
    ensures Likes(project, app, anchors, a) == Likes(project, app, anchors, r) && Alike(a, r)
  {
    hide NameOf, InScope;
  }

  lemma LikesBoth(project: Text, app: Text, anchors: seq<Row>, a: Row, b: Row)
    requires a in anchors && b in anchors && InScope(project, app, a) && InScope(project, app, b) && Alike(a, b)
    ensures a in Likes(project, app, anchors, a) && b in Likes(project, app, anchors, a)
  {
    hide InScope, NameOf;
  }
}
