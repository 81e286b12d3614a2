// What every run of the consolidation lifecycle keeps: where retired memories
// point, and that merging them never goes round in a circle.
module ConsolidationTheorems {
  import opened Consolidation
  import opened ConsolidationMoves
  import opened Wrappers

  type Proposals = map<nat, Proposal>

  // ---------------------------------------------------------------- where retired memories point

  ghost predicate Marked(rows: Rows, m: string, id: nat) { m in rows && rows[m].shadowedBy == Some(id) }

  ghost predicate Gone(rows: Rows, m: string) { m in rows && !rows[m].state.Active? }

  predicate IsTarget(p: Proposal, m: string) { m in p.sources && p.canonical != Some(m) }

  /** Retired memories, and only they, name the proposal that retired them, and they are targets of it. */
  ghost predicate RowsInv(rows: Rows, proposals: Proposals) {
    && (forall m :: m in rows ==> (rows[m].state.Active? <==> rows[m].shadowedBy.None?))
    && (forall m, id :: Marked(rows, m, id) ==> id in proposals && IsTarget(proposals[id], m))
  }

  /** `m` is retired in favour of `c`, by a proposal that has `c` among its sources. */
  ghost predicate MergedInto(rows: Rows, proposals: Proposals, m: string, c: string) {
    && Gone(rows, m) && rows[m].shadowedBy.Some?
    && var id := rows[m].shadowedBy.value;
      id in proposals && proposals[id].canonical == Some(c) && c in proposals[id].sources
  }

  /** Whatever a retired memory was merged into was retired later than it, if at all. */
  ghost predicate OrderInv(rows: Rows, proposals: Proposals, retired: map<string, nat>, tick: nat) {
    && (forall m :: Gone(rows, m) ==> m in retired && retired[m] < tick)
    && (forall m, c :: MergedInto(rows, proposals, m, c) && Gone(rows, c) ==> retired[m] < retired[c])
  }

  ghost predicate LinksInv(rows: Rows, proposals: Proposals, retired: map<string, nat>, tick: nat) {
    && RowsInv(rows, proposals) && OrderInv(rows, proposals, retired, tick)
    && (forall id :: id in proposals ==> Distinct(proposals[id].sources))
  }

  ghost predicate Linked(s: World) { LinksInv(s.rows, s.proposals, s.retired, s.tick) }

  /** A proposal changes in a way that no retired memory depends on. */
  ghost predicate Harmless(rows: Rows, id: nat, p: Proposal, q: Proposal) {
    && q.sources == p.sources && q.app == p.app
    && (q.canonical == p.canonical || forall m :: m in rows ==> !Marked(rows, m, id))
  }

  lemma ProposalKeeps(s: World, id: nat, q: Proposal)
    requires Linked(s) && id in s.proposals && Harmless(s.rows, id, s.proposals[id], q)
    ensures LinksInv(s.rows, s.proposals[id := q], s.retired, s.tick)
  {
    var after := s.proposals[id := q];
    forall m, c | MergedInto(s.rows, after, m, c) ensures MergedInto(s.rows, s.proposals, m, c) {
      assert Marked(s.rows, m, s.rows[m].shadowedBy.value);
    }
  }

  /** While all its sources are active, a proposal has retired nothing. */
  lemma FitsUnmarked(s: World, id: nat, hashes: Hashes)
    requires Linked(s) && id in s.proposals && SourcesFit(s.rows, s.proposals[id], hashes)
    ensures forall m :: m in s.rows ==> !Marked(s.rows, m, id)
  {
    var p := s.proposals[id];
    forall m | m in s.rows ensures !Marked(s.rows, m, id) {
      assert m in p.sources ==> SourceFits(s.rows[m], p.app, hashes[m]);
    }
  }

  lemma SourceActive(s: World, id: nat, hashes: Hashes, c: string)
    requires id in s.proposals && SourcesFit(s.rows, s.proposals[id], hashes) && c in s.proposals[id].sources
    ensures c in s.rows && s.rows[c].state.Active?
  {
    assert SourceFits(s.rows[c], s.proposals[id].app, hashes[c]);
  }

  lemma RetireMarks(s: World, id: nat)
    requires RowsInv(s.rows, s.proposals) && id in s.proposals
    ensures RowsInv(Retire(s.rows, id, s.proposals[id]), s.proposals)
  {
    var rows := Retire(s.rows, id, s.proposals[id]);
    forall m, j | Marked(rows, m, j) ensures j in s.proposals && IsTarget(s.proposals[j], m) {
      assert Marked(s.rows, m, j) || (j == id && m in Targets(s.proposals[id]));
    }
  }

  /** A new retirement points to an active memory. */
  lemma RetirePoints(s: World, id: nat, hashes: Hashes, m: string, c: string)
    requires Linked(s) && id in s.proposals && SourcesFit(s.rows, s.proposals[id], hashes)
    requires MergedInto(Retire(s.rows, id, s.proposals[id]), s.proposals, m, c)
    ensures m in Targets(s.proposals[id]) ==> !Gone(Retire(s.rows, id, s.proposals[id]), c)
    ensures m !in Targets(s.proposals[id]) ==> MergedInto(s.rows, s.proposals, m, c)
  {
    if m in Targets(s.proposals[id]) { SourceActive(s, id, hashes, c); }
  }

  /** Retiring active memories in favour of an active one keeps the order of retirements. */
  lemma RetireLinks(s: World, id: nat, hashes: Hashes)
    requires Linked(s) && id in s.proposals && SourcesFit(s.rows, s.proposals[id], hashes)
    ensures var p := s.proposals[id];
      LinksInv(Retire(s.rows, id, p), s.proposals, s.retired + (map m | m in Targets(p) :: s.tick), s.tick + 1)
  {
    hide SourcesFit;
    var p := s.proposals[id];
    var rows := Retire(s.rows, id, p);
    RetireMarks(s, id);
    forall m, c | MergedInto(rows, s.proposals, m, c)
      ensures (m in Targets(p) ==> !Gone(rows, c)) && (m !in Targets(p) ==> MergedInto(s.rows, s.proposals, m, c)) {
      RetirePoints(s, id, hashes, m, c);
    }
    RetireGone(s.rows, id, p);
    hide RowsInv, Targets, MergedInto, Gone, Retire;
  }

  lemma RetireGone(rows: Rows, id: nat, p: Proposal)
    ensures forall m :: Gone(Retire(rows, id, p), m) ==> m in Targets(p) || Gone(rows, m)
  {
  }

  predicate Released(row: Row) { row.state.Active? && row.shadowedBy.None? }

  predicate SameRetirement(before: Row, after: Row) { after.state == before.state && after.shadowedBy == before.shadowedBy }

  /** Memories that become active again, or change nothing about their retirement, do no harm. */
  lemma RowsKeep(s: World, rows: Rows)
    requires Linked(s)
    requires forall m :: m in rows ==> Released(rows[m]) || (m in s.rows && SameRetirement(s.rows[m], rows[m]))
    ensures LinksInv(rows, s.proposals, s.retired, s.tick)
  {
    assert forall m, id :: Marked(rows, m, id) ==> Marked(s.rows, m, id);
    assert forall m, c :: MergedInto(rows, s.proposals, m, c) ==> MergedInto(s.rows, s.proposals, m, c);
  }

  lemma ProposeLinks(s: World, id: nat, q: Proposal)
    requires Linked(s) && id !in s.proposals && Distinct(q.sources)
    ensures LinksInv(s.rows, s.proposals[id := q], s.retired, s.tick)
  {
    forall m, c | MergedInto(s.rows, s.proposals[id := q], m, c) ensures MergedInto(s.rows, s.proposals, m, c) {
      assert Marked(s.rows, m, s.rows[m].shadowedBy.value);
    }
  }

  // ---------------------------------------------------------------- attempts

  ghost predicate KnownAttempts(proposals: Proposals, used: set<nat>) {
    forall id :: id in proposals ==> KnownAttempt(proposals[id], used)
  }

  ghost predicate KnownAttempt(p: Proposal, used: set<nat>) {
    p.attempt.Some? ==> p.attempt.value in used && p.expires.Some?
  }

  ghost predicate ShadowsInv(shadows: map<nat, Shadow>, proposals: Proposals, used: set<nat>) {
    shadows.Keys <= used && forall a :: a in shadows ==> shadows[a].proposal in proposals
  }

  ghost predicate AttemptsInv(s: World) {
    KnownAttempts(s.proposals, s.used) && ShadowsInv(s.shadows, s.proposals, s.used) && s.finalizers.Keys <= s.used
  }

  // ---------------------------------------------------------------- every step keeps the invariant

  ghost predicate Inv(s: World) { Linked(s) && AttemptsInv(s) }

  /** A step that changes one proposal, and at most drops attempts or finalizers or adds a new one. */
  lemma ProposalStep(s: World, id: nat, q: Proposal, t: World)
    requires Inv(s) && id in s.proposals && Harmless(s.rows, id, s.proposals[id], q) && t.proposals == s.proposals[id := q]
    requires t.rows == s.rows && t.retired == s.retired && t.tick == s.tick && s.used <= t.used
    requires KnownAttempt(q, t.used) && ShadowsInv(t.shadows, s.proposals, t.used) && t.finalizers.Keys <= t.used
    ensures Inv(t)
  {
    ProposalKeeps(s, id, q);
    hide LinksInv;
  }

  /** A step that leaves the canonical of the proposal alone. */
  lemma QuietStep(s: World, id: nat, q: Proposal, t: World)
    requires Inv(s) && id in s.proposals && Quiet(s.proposals[id], q) && t.proposals == s.proposals[id := q]
    requires t.rows == s.rows && t.retired == s.retired && t.tick == s.tick && s.used <= t.used
    requires KnownAttempt(q, t.used) && ShadowsInv(t.shadows, s.proposals, t.used) && t.finalizers.Keys <= t.used
    ensures Inv(t)
  {
    ProposalStep(s, id, q, t);
  }

  predicate Quiet(p: Proposal, q: Proposal) { q.sources == p.sources && q.app == p.app && q.canonical == p.canonical }

  lemma SameProposals(s: World, id: nat)
    requires Inv(s) && id in s.proposals
    ensures s.proposals[id := s.proposals[id]] == s.proposals && KnownAttempt(s.proposals[id], s.used)
    ensures ShadowsInv(s.shadows, s.proposals, s.used) && s.finalizers.Keys <= s.used
  {
    hide Linked;
  }

  lemma ApproveKeeps(s: World, id: nat, a: Approval, policy: bool)
    requires Inv(s) && id in s.proposals
    ensures Inv(ApproveStep(s, id, a, policy))
  {
    if SourcesFit(s.rows, s.proposals[id], a.hashes) { FitsUnmarked(s, id, a.hashes); }
    SameProposals(s, id);
    hide Inv, SourcesFit, MayApprove, ShadowsInv, KnownAttempts;
    var t := ApproveStep(s, id, a, policy);
    ProposalStep(s, id, t.proposals[id], t);
  }

  lemma ReplaceStepKeeps(s: World, r: nat, id: nat, hashes: Hashes, policy: bool)
    requires Inv(s) && id in s.proposals
    ensures Inv(ReplaceStep(s, r, id, hashes, policy))
  {
    SameProposals(s, id);
    hide Inv, SourcesFit, ShadowsInv, KnownAttempts;
    var t := ReplaceStep(s, r, id, hashes, policy);
    QuietStep(s, id, t.proposals[id], t);
  }

  lemma ReplacedIs(s: World, r: nat, memory: string, hash: string)
    requires r in s.replacing && s.replacing[r].0 in s.proposals
    ensures var (id, hashes) := s.replacing[r]; var t := ReplacedStep(s, r, memory, hash); var p, q := s.proposals[id], t.proposals[id];
      && t == s.(replacing := t.replacing, proposals := s.proposals[id := q])
      && q.sources == p.sources && q.app == p.app && q.attempt == p.attempt && q.expires == p.expires
      && (q.canonical == p.canonical || SourcesFit(s.rows, p, hashes))
  {
    hide SourcesFit;
  }

  lemma ReplacedKeeps(s: World, r: nat, memory: string, hash: string)
    requires Inv(s) && Enabled(s, Replaced(r, memory, hash))
    ensures Inv(ReplacedStep(s, r, memory, hash))
  {
    var (id, hashes) := s.replacing[r];
    if SourcesFit(s.rows, s.proposals[id], hashes) { FitsUnmarked(s, id, hashes); }
    SameProposals(s, id);
    ReplacedIs(s, r, memory, hash);
    hide Inv, Enabled, SourcesFit, ShadowsInv, KnownAttempts, Linked, ReplacedStep, Marked;
    var t := ReplacedStep(s, r, memory, hash);
    ProposalStep(s, id, t.proposals[id], t);
  }

  lemma MoreShadows(s: World, attempt: nat, id: nat, hashes: Hashes)
    requires ShadowsInv(s.shadows, s.proposals, s.used) && id in s.proposals
    ensures ShadowsInv(s.shadows[attempt := Shadow(id, hashes)], s.proposals, s.used + {attempt})
  {
  }

  lemma LessShadows(s: World, attempt: nat)
    requires ShadowsInv(s.shadows, s.proposals, s.used)
    ensures ShadowsInv(s.shadows - {attempt}, s.proposals, s.used)
  {
  }

  lemma ShadowKeeps(s: World, attempt: nat, id: nat, lease: nat, ready: bool)
    requires Inv(s) && id in s.proposals
    ensures Inv(ShadowStep(s, attempt, id, lease, ready))
  {
    SameProposals(s, id);
    MoreShadows(s, attempt, id, s.proposals[id].hashes);
    hide Inv, SourcesFit, ShadowsInv, KnownAttempts, LeaseLive;
    var t := ShadowStep(s, attempt, id, lease, ready);
    QuietStep(s, id, t.proposals[id], t);
  }

  lemma MismatchKeeps(s: World, attempt: nat)
    requires Inv(s) && Enabled(s, Mismatch(attempt))
    ensures Inv(MismatchStep(s, attempt))
  {
    var id := s.shadows[attempt].proposal;
    SameProposals(s, id);
    LessShadows(s, attempt);
    hide Inv, ShadowsInv, KnownAttempts;
    var p, t := s.proposals[id], MismatchStep(s, attempt);
    if Owns(p, attempt) {
      QuietStep(s, id, ClearAttempt(p).(status := Stale), t);
    } else {
      QuietStep(s, id, p, t);
    }
  }

  /** The world after the targets were retired, before the proposal is updated. */
  lemma RetireKeeps(s: World, id: nat, hashes: Hashes)
    requires Inv(s) && id in s.proposals && SourcesFit(s.rows, s.proposals[id], hashes)
    ensures var p := s.proposals[id];
      Inv(s.(rows := Retire(s.rows, id, p), retired := s.retired + (map m | m in Targets(p) :: s.tick), tick := s.tick + 1))
  {
    RetireLinks(s, id, hashes);
    hide LinksInv, SourcesFit, Retire, ShadowsInv, KnownAttempts, Targets;
  }

  /** The section that retires the targets. */
  lemma ShadowedRetires(s: World, attempt: nat, id: nat, hashes: Hashes, q: Proposal)
    requires Inv(s) && id in s.proposals && SourcesFit(s.rows, s.proposals[id], hashes)
    requires Quiet(s.proposals[id], q) && q.attempt.None?
    ensures var p := s.proposals[id];
      Inv(s.(shadows := s.shadows - {attempt}, rows := Retire(s.rows, id, p), proposals := s.proposals[id := q],
             retired := s.retired + (map m | m in Targets(p) :: s.tick), tick := s.tick + 1))
  {
    var p := s.proposals[id];
    SameProposals(s, id);
    LessShadows(s, attempt);
    RetireKeeps(s, id, hashes);
    hide Inv, SourcesFit, Retire, ShadowsInv, KnownAttempts, Targets;
    var u := s.(rows := Retire(s.rows, id, p), retired := s.retired + (map m | m in Targets(p) :: s.tick), tick := s.tick + 1);
    QuietStep(u, id, q, u.(shadows := s.shadows - {attempt}, proposals := s.proposals[id := q]));
  }

  /** The section that only records what became of the export. */
  lemma ShadowedRecords(s: World, attempt: nat, id: nat, q: Proposal)
    requires Inv(s) && id in s.proposals && Quiet(s.proposals[id], q) && (q.attempt.None? || q == s.proposals[id])
    ensures Inv(s.(shadows := s.shadows - {attempt}, proposals := s.proposals[id := q]))
  {
    SameProposals(s, id);
    LessShadows(s, attempt);
    hide Inv, ShadowsInv, KnownAttempts;
    QuietStep(s, id, q, s.(shadows := s.shadows - {attempt}, proposals := s.proposals[id := q]));
  }

  lemma ShadowedKeeps(s: World, attempt: nat, job: Export, upstreamMatches: bool, grace: nat)
    requires Inv(s) && Enabled(s, EndShadow(attempt, job, upstreamMatches, grace))
    ensures Inv(ShadowedStep(s, attempt, job, upstreamMatches, grace))
  {
    hide Inv, SourcesFit, Retire, Targets;
    var Shadow(id, hashes) := s.shadows[attempt];
    var p, q := s.proposals[id], ShadowedStep(s, attempt, job, upstreamMatches, grace).proposals[id];
    if !Owns(p, attempt) {
      ShadowedRecords(s, attempt, id, p);
      assert s.proposals[id := p] == s.proposals;
    } else if job.succeeded && job.complete && upstreamMatches && SourcesFit(s.rows, p, hashes) {
      ShadowedRetires(s, attempt, id, hashes, q);
    } else {
      ShadowedRecords(s, attempt, id, q);
    }
  }

  lemma RowsStep(s: World, rows: Rows)
    requires Inv(s)
    requires forall m :: m in rows ==> Released(rows[m]) || (m in s.rows && SameRetirement(s.rows[m], rows[m]))
    ensures Inv(s.(rows := rows))
  {
    RowsKeep(s, rows);
    hide LinksInv, KnownAttempts, ShadowsInv;
  }

  lemma RollbackKeeps(s: World, id: nat)
    requires Inv(s) && id in s.proposals
    ensures Inv(RollbackStep(s, id))
  {
    SameProposals(s, id);
    hide Inv, KnownAttempts, ShadowsInv;
    var p := s.proposals[id];
    RowsStep(s, RollbackRows(s.rows, id, p));
    hide RollbackRows;
    if p.status.ShadowedStatus? {
      QuietStep(s.(rows := RollbackRows(s.rows, id, p)), id, p.(notBefore := None, status := RolledBack), RollbackStep(s, id));
    }
  }

  lemma UpsertKeeps(s: World, m: string, app: string, hash: string, pinned: bool)
    requires Inv(s)
    ensures Inv(UpsertStep(s, m, app, hash, pinned))
  {
    hide Inv;
    RowsStep(s, UpsertStep(s, m, app, hash, pinned).rows);
  }

  lemma DeleteKeeps(s: World, m: string)
    requires Inv(s)
    ensures Inv(DeleteStep(s, m))
  {
    hide Inv;
    RowsStep(s, DeleteStep(s, m).rows);
  }

  /** A finalizer moves on or stops, and may leave a status. */
  lemma StatusKeeps(s: World, id: nat, q: Proposal, t: World)
    requires Inv(s) && id in s.proposals && Quiet(s.proposals[id], q) && q.attempt == s.proposals[id].attempt && q.expires == s.proposals[id].expires
    requires t == s.(proposals := s.proposals[id := q], finalizers := t.finalizers, log := t.log, used := t.used)
    requires s.used <= t.used && t.finalizers.Keys <= t.used
    ensures Inv(t)
  {
    SameProposals(s, id);
    hide Linked, KnownAttempts;
    QuietStep(s, id, q, t);
  }

  lemma DecidedKeeps(s: World, t: World, f: nat, id: nat)
    requires Inv(s) && Decided(s, t, f, id)
    ensures Inv(t)
  {
    SameProposals(s, id);
    hide Inv;
    StatusKeeps(s, id, t.proposals[id], t);
  }

  lemma DecidingKeeps(s: World, e: Event)
    requires Inv(s) && Enabled(s, e) && Deciding(e)
    ensures Inv(Step(s, e))
  {
    var t, id := Step(s, e), s.finalizers[e.f].proposal;
    assert e.f in s.finalizers;
    DecidingDecides(s, e);
    hide Inv, Step, Enabled, Decided;
    DecidedKeeps(s, t, e.f, id);
  }

  lemma BeginKeeps(s: World, f: nat, id: nat, enabled: bool)
    requires Inv(s) && Enabled(s, BeginFinalize(f, id, enabled))
    ensures Inv(FinalizeStep(s, f, id, enabled))
  {
    var t := FinalizeStep(s, f, id, enabled);
    SameProposals(s, id);
    hide Inv, Targets;
    StatusKeeps(s, id, s.proposals[id], t);
  }

  /** Finalizers, their log and the lineage, upstream and the open intents are nobody else's business. */
  lemma FinalizersAlone(s: World, t: World)
    requires Inv(s) && t.finalizers.Keys <= s.finalizers.Keys
    requires t == s.(finalizers := t.finalizers, lineage := t.lineage, log := t.log, upstream := t.upstream, intents := t.intents)
    ensures Inv(t)
  {
    hide LinksInv, KnownAttempts, ShadowsInv;
  }

  lemma MovingKeeps(s: World, e: Event)
    requires Inv(s) && Enabled(s, e) && Moving(e)
    ensures Inv(Step(s, e))
  {
    MovingMoves(s, e);
    hide Inv, Step, Enabled;
    var t := Step(s, e);
    BuriedRows(s.rows, t.rows);
    RowsStep(s, t.rows);
    FinalizersAlone(s.(rows := t.rows), t);
  }

  lemma BuriedRows(rows: Rows, after: Rows)
    requires after == rows || exists ms :: after == Bury(rows, ms)
    ensures forall m :: m in after ==> m in rows && SameRetirement(rows[m], after[m])
  {
  }

  lemma ProposeKeeps(s: World, id: nat, q: Proposal)
    requires Inv(s) && id !in s.proposals && Distinct(q.sources) && q.attempt.None?
    ensures Inv(s.(proposals := s.proposals[id := q]))
  {
    ProposeLinks(s, id, q);
    hide LinksInv;
  }

  /** The empty service satisfies the invariant. */
  lemma StartKeeps(now: int)
    ensures Inv(Start(now))
  {
  }

  lemma StepKeeps(s: World, e: Event)
    requires Inv(s) && Enabled(s, e)
    ensures Inv(Step(s, e))
  {
    hide Inv, ApproveStep, ReplaceStep, ReplacedStep, ShadowStep, MismatchStep, ShadowedStep, RollbackStep, UpsertStep, DeleteStep;
    hide FinalizeStep, LookStep, CheckStep, ClaimStep, ObserveStep, OpenStep, AskStep, CommitStep, VerifyStep, RecordStep, ApplyStep, Stop;
    match e
    case Propose(id, app, kind, sources, canonical, review) =>
      ProposeKeeps(s, id, NewProposal(app, kind, sources, canonical, review));
    case ApproveIt(id, a, policy) => ApproveKeeps(s, id, a, policy);
    case Replace(r, id, hashes, policy) => ReplaceStepKeeps(s, r, id, hashes, policy);
    case Replaced(r, memory, hash) => ReplacedKeeps(s, r, memory, hash);
    case BeginShadow(attempt, id, lease, ready) => ShadowKeeps(s, attempt, id, lease, ready);
    case Mismatch(attempt) => MismatchKeeps(s, attempt);
    case EndShadow(attempt, job, upstreamMatches, grace) => ShadowedKeeps(s, attempt, job, upstreamMatches, grace);
    case Rollback(id) => RollbackKeeps(s, id);
    case Upsert(m, app, hash, pinned) => UpsertKeeps(s, m, app, hash, pinned);
    case Delete(m) => DeleteKeeps(s, m);
    case Tick(elapsed) => TickKeeps(s, elapsed);
    case BeginFinalize(f, id, enabled) => BeginKeeps(s, f, id, enabled);
    case Upstream(_, _) => FinalizersAlone(s, Step(s, e));
    case Elsewhere(_, _) => FinalizersAlone(s, Step(s, e));
    case _ => if Moving(e) { MovingKeeps(s, e); } else { DecidingKeeps(s, e); }
  }

  lemma TickKeeps(s: World, elapsed: nat)
    requires Inv(s)
    ensures Inv(s.(now := s.now + elapsed))
  {
    hide LinksInv, KnownAttempts, ShadowsInv;
  }

  lemma {:induction false} RunKeeps(s: World, es: seq<Event>, t: World)
    requires Inv(s) && Run(s, es, t)
    ensures Inv(t)
    decreases |es|
  {
    hide Inv, Step, Enabled;
    if es != [] {
      StepKeeps(s, es[0]);
      RunKeeps(Step(s, es[0]), es[1..], t);
    }
  }

  // ---------------------------------------------------------------- chains of merges

  type Links = map<string, string>

  /** Where each retired memory points: to the canonical of the proposal that retired it. */
  ghost function LinksOf(rows: Rows, proposals: Proposals): Links {
    map m | m in rows && PointsSomewhere(rows, proposals, m) :: proposals[rows[m].shadowedBy.value].canonical.value
  }

  ghost predicate PointsSomewhere(rows: Rows, proposals: Proposals, m: string) {
    && Gone(rows, m) && rows[m].shadowedBy.Some? && rows[m].shadowedBy.value in proposals
    && proposals[rows[m].shadowedBy.value].canonical.Some?
  }

  /** The links to canonicals that were themselves sources, not replacement memories. */
  ghost function MergeLinks(rows: Rows, proposals: Proposals): Links {
    map m | m in rows && PointsSomewhere(rows, proposals, m)
        && proposals[rows[m].shadowedBy.value].canonical.value in proposals[rows[m].shadowedBy.value].sources
      :: proposals[rows[m].shadowedBy.value].canonical.value
  }

  /** The memory `k` links on from `m`, if the chain is that long. */
  ghost function Follow(links: Links, m: string, k: nat): Option<string>
    decreases k
  {
    if k == 0 then Some(m) else if m in links then Follow(links, links[m], k - 1) else None
  }

  ghost predicate Cyclic(links: Links) { exists m, k: nat :: k > 0 && Follow(links, m, k) == Some(m) }

  lemma {:induction false} RetiredLater(s: World, m: string, k: nat, n: string)
    requires Linked(s) && k > 0 && n in MergeLinks(s.rows, s.proposals)
    requires Follow(MergeLinks(s.rows, s.proposals), m, k) == Some(n)
    ensures m in s.retired && n in s.retired && s.retired[m] < s.retired[n]
    decreases k
  {
    var c := MergeLinks(s.rows, s.proposals)[m];
    assert MergedInto(s.rows, s.proposals, m, c);
    if k > 1 {
      RetiredLater(s, c, k - 1, n);
    }
  }

  /** In every reachable state, merging never leads a memory back to itself. */
  lemma MergesAcyclic(s: World, es: seq<Event>, t: World)
    requires Inv(s) && Run(s, es, t)
    ensures !Cyclic(MergeLinks(t.rows, t.proposals))
  {
    RunKeeps(s, es, t);
    hide Run;
    var links := MergeLinks(t.rows, t.proposals);
    if m, k: nat :| k > 0 && Follow(links, m, k) == Some(m) {
      assert m in links;
      hide AttemptsInv, LinksInv, MergeLinks;
      RetiredLater(t, m, k, m);
    }
  }

  /** The chain from `m` meets one of `targets` within `k` links. */
  ghost predicate Meets(links: Links, m: string, targets: set<string>, k: int) {
    exists u, j: nat :: u in targets && j <= k && Follow(links, m, j) == Some(u)
  }

  function LinkAll(targets: set<string>, c: string): Links { map x | x in targets :: c }

  /** Up to the first target, a chain is the same before and after the targets are linked. */
  lemma {:induction false} FirstTarget(links: Links, targets: set<string>, c: string, m: string, t: string, k: nat)
    requires t in targets && Follow(links + LinkAll(targets, c), m, k) == Some(t)
    ensures Meets(links, m, targets, k)
    decreases k
  {
    if m in targets {
      assert Follow(links, m, 0) == Some(m);
    } else {
      FirstTarget(links, targets, c, links[m], t, k - 1);
      var u, j: nat :| u in targets && j <= k - 1 && Follow(links, links[m], j) == Some(u);
      assert Follow(links, m, j + 1) == Some(u);
    }
  }

  lemma {:induction false} FollowSum(links: Links, a: string, j: nat, b: string, k: nat)
    requires Follow(links, a, j) == Some(b)
    ensures Follow(links, a, j + k) == Follow(links, b, k)
    decreases j
  {
    if j > 0 { FollowSum(links, links[a], j - 1, b, k); }
  }

  lemma {:induction false} FollowMore(links: Links, more: Links, m: string, k: nat, n: string)
    requires Follow(links, m, k) == Some(n) && links.Keys !! more.Keys
    ensures Follow(links + more, m, k) == Some(n)
    decreases k
  {
    if k > 0 { FollowMore(links, more, links[m], k - 1, n); }
  }

  ghost predicate Leads(links: Links, c: string, targets: set<string>) {
    exists u, j: nat :: u in targets && Follow(links, c, j) == Some(u)
  }

  /** A chain that the new links change goes through a target. */
  lemma {:induction false} ChangedMeetsTarget(links: Links, targets: set<string>, c: string, a: string, k: nat, b: string)
    requires Follow(links + LinkAll(targets, c), a, k) == Some(b)
    ensures Follow(links, a, k) == Some(b) || Meets(links + LinkAll(targets, c), a, targets, k - 1)
    decreases k
  {
    var after := links + LinkAll(targets, c);
    if k > 0 {
      if a in targets {
        assert Follow(after, a, 0) == Some(a);
      } else {
        ChangedMeetsTarget(links, targets, c, links[a], k - 1, b);
        if Meets(after, links[a], targets, k - 2) {
          var u, j: nat :| u in targets && j <= k - 2 && Follow(after, links[a], j) == Some(u);
          assert Follow(after, a, j + 1) == Some(u);
        }
      }
    }
  }

  lemma CycleLeads(links: Links, targets: set<string>, c: string, m: string, k: nat)
    requires !Cyclic(links) && k > 0 && Follow(links + LinkAll(targets, c), m, k) == Some(m)
    ensures Leads(links, c, targets)
  {
    var after := links + LinkAll(targets, c);
    ChangedMeetsTarget(links, targets, c, m, k, m);
    assert Follow(links, m, k) != Some(m);
    var u, j: nat :| u in targets && j <= k - 1 && Follow(after, m, j) == Some(u);
    FollowSum(after, m, j, u, k - j);
    FollowSum(after, u, k - j, m, j);
    assert Follow(after, u, k) == Some(u);
    assert Follow(after, c, k - 1) == Some(u);
    FirstTarget(links, targets, c, c, u, k - 1);
  }

  /** Retiring active `targets` in favour of `c` closes a cycle exactly if the chain from `c` already leads to one of them. */
  lemma RetireClosesCycle(links: Links, targets: set<string>, c: string)
    requires !Cyclic(links) && links.Keys !! targets
    ensures Cyclic(links + LinkAll(targets, c)) <==> Leads(links, c, targets)
  {
    var after := links + LinkAll(targets, c);
    if Leads(links, c, targets) {
      var u, j: nat :| u in targets && Follow(links, c, j) == Some(u);
      FollowMore(links, LinkAll(targets, c), c, j, u);
      assert Follow(after, u, j + 1) == Some(u);
    }
    if Cyclic(after) {
      var m, k: nat :| k > 0 && Follow(after, m, k) == Some(m);
      CycleLeads(links, targets, c, m, k);
    }
  }

  lemma RetiredPoints(rows: Rows, proposals: Proposals, id: nat, m: string)
    requires id in proposals && proposals[id].canonical.Some? && m in rows
    ensures var after := Retire(rows, id, proposals[id]);
      PointsSomewhere(after, proposals, m) <==> m in Targets(proposals[id]) || PointsSomewhere(rows, proposals, m)
  {
    hide Targets;
  }

  lemma RetireAddsLinks(rows: Rows, proposals: Proposals, id: nat, targets: set<string>, c: string)
    requires id in proposals && proposals[id].canonical == Some(c) && targets == set m | m in Targets(proposals[id])
    requires forall m :: m in targets ==> m in rows && rows[m].state.Active?
    ensures LinksOf(rows, proposals).Keys !! targets
    ensures LinksOf(Retire(rows, id, proposals[id]), proposals) == LinksOf(rows, proposals) + LinkAll(targets, c)
  {
    var after := Retire(rows, id, proposals[id]);
    forall m | m in rows ensures PointsSomewhere(after, proposals, m) <==> m in targets || PointsSomewhere(rows, proposals, m) {
      RetiredPoints(rows, proposals, id, m);
    }
    hide Targets, PointsSomewhere;
    assert LinksOf(after, proposals).Keys == LinksOf(rows, proposals).Keys + targets;
  }

  /** What a successful `shadow_approved` adds to the links. */
  lemma ShadowedLinksTo(s: World, id: nat, hashes: Hashes, c: string)
    requires Inv(s) && id in s.proposals && SourcesFit(s.rows, s.proposals[id], hashes) && s.proposals[id].canonical == Some(c)
    ensures var p, links := s.proposals[id], LinksOf(s.rows, s.proposals);
      var targets := set m | m in Targets(p);
      && links.Keys !! targets
      && LinksOf(Retire(s.rows, id, p), s.proposals) == links + LinkAll(targets, c)
  {
    var p := s.proposals[id];
    forall m | m in Targets(p) ensures m in s.rows && s.rows[m].state.Active? { SourceActive(s, id, hashes, m); }
    hide Inv, SourcesFit, Targets, LinksOf, Retire;
    RetireAddsLinks(s.rows, s.proposals, id, (set m | m in Targets(p)), c);
  }

  /** With replacement memories counted in, shadowing keeps the links acyclic exactly if the canonical's chain avoids the targets. */
  lemma ShadowingKeepsAcyclic(s: World, id: nat, hashes: Hashes, c: string)
    requires Inv(s) && id in s.proposals && SourcesFit(s.rows, s.proposals[id], hashes) && s.proposals[id].canonical == Some(c)
    requires !Cyclic(LinksOf(s.rows, s.proposals))
    ensures var p, links := s.proposals[id], LinksOf(s.rows, s.proposals);
      !Cyclic(LinksOf(Retire(s.rows, id, p), s.proposals)) <==> !Leads(links, c, (set m | m in Targets(p)))
  {
    ShadowedLinksTo(s, id, hashes, c);
    hide Inv, SourcesFit, Targets, LinksOf, Retire, Cyclic, Leads;
    RetireClosesCycle(LinksOf(s.rows, s.proposals), (set m | m in Targets(s.proposals[id])), c);
  }
}
