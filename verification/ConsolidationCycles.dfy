// Cycles of retired memories over whole runs, with replacement memories counted
// in: they come from exactly the shadowings whose canonical leads to a target.
module ConsolidationCycles {
  import opened Consolidation
  import opened ConsolidationMoves
  import opened ConsolidationTheorems
  import opened ConsolidationOutcomes
  import opened Wrappers

  ghost function Chains(s: World): Links { LinksOf(s.rows, s.proposals) }

  /** The event is the last section of a `shadow_approved` that retires its targets. */
  predicate Succeeds(s: World, e: Event) {
    && e.EndShadow? && Enabled(s, e)
    && var Shadow(id, hashes) := s.shadows[e.attempt];
      && Owns(s.proposals[id], e.attempt) && e.job.succeeded && e.job.complete && e.upstreamMatches
      && SourcesFit(s.rows, s.proposals[id], hashes)
  }

  /** And the chain from its canonical leads to one of them. */
  ghost predicate Closes(s: World, e: Event) {
    && Succeeds(s, e)
    && var p := s.proposals[s.shadows[e.attempt].proposal];
      p.canonical.Some? && Leads(Chains(s), p.canonical.value, set m | m in Targets(p))
  }

  // ---------------------------------------------------------------- other steps add no links

  lemma {:induction false} FollowLess(less: Links, links: Links, m: string, k: nat, n: string)
    requires Follow(less, m, k) == Some(n) && forall x :: x in less ==> x in links && links[x] == less[x]
    ensures Follow(links, m, k) == Some(n)
    decreases k
  {
    if k > 0 { FollowLess(less, links, less[m], k - 1, n); }
  }

  lemma LessAcyclic(less: Links, links: Links)
    requires !Cyclic(links) && forall x :: x in less ==> x in links && links[x] == less[x]
    ensures !Cyclic(less)
  {
    if m, k: nat :| k > 0 && Follow(less, m, k) == Some(m) {
      FollowLess(less, links, m, k, m);
    }
  }

  ghost predicate RowsReleased(rows: Rows, after: Rows) {
    forall m :: m in after ==> Released(after[m]) || (m in rows && SameRetirement(rows[m], after[m]))
  }

  lemma RollbackReleases(s: World, id: nat)
    requires id in s.proposals
    ensures RowsReleased(s.rows, RollbackStep(s, id).rows)
  {
  }

  lemma UpsertReleases(s: World, m: string, app: string, hash: string, pinned: bool)
    ensures RowsReleased(s.rows, UpsertStep(s, m, app, hash, pinned).rows) && RowsReleased(s.rows, DeleteStep(s, m).rows)
  {
  }

  lemma ServiceReleases(s: World, e: Event)
    requires Enabled(s, e) && (e.Rollback? || e.Upsert? || e.Delete?)
    ensures RowsReleased(s.rows, Step(s, e).rows)
  {
    hide RowsReleased, RollbackStep, UpsertStep, DeleteStep;
    match e
    case Rollback(id) => RollbackReleases(s, id);
    case Upsert(m, app, hash, pinned) => UpsertReleases(s, m, app, hash, pinned);
    case Delete(m) => UpsertReleases(s, m, "", "", false);
  }

  lemma BeginKeepsRows(s: World, attempt: nat, id: nat, lease: nat, ready: bool)
    requires id in s.proposals
    ensures ShadowStep(s, attempt, id, lease, ready).rows == s.rows
  {
    hide SourcesFit, LeaseLive;
  }

  lemma DecisionsKeepRows(s: World, e: Event)
    requires Enabled(s, e) && (e.ApproveIt? || e.Replace? || e.Replaced? || e.BeginShadow? || e.Mismatch?)
    ensures Step(s, e).rows == s.rows
  {
    if e.BeginShadow? {
      BeginKeepsRows(s, e.attempt, e.id, e.lease, e.ready);
      hide ShadowStep;
    } else {
      hide SourcesFit, Decide, Approve, ShadowStep;
    }
  }

  lemma FailedKeepsRows(s: World, e: Event)
    requires Enabled(s, e) && e.EndShadow? && !Succeeds(s, e)
    ensures Step(s, e).rows == s.rows
  {
    hide SourcesFit, Retire, Targets;
  }

  lemma FinalizerReleases(s: World, e: Event)
    requires Enabled(s, e) && Working(e)
    ensures RowsReleased(s.rows, Step(s, e).rows)
  {
    if Moving(e) { MovingMoves(s, e); } else { DecidingDecides(s, e); }
    hide Step, Enabled;
    BuriedRows(s.rows, Step(s, e).rows);
  }

  lemma RestKeepsRows(s: World, e: Event)
    requires Enabled(s, e) && (e.Tick? || e.Propose? || e.BeginFinalize? || e.Upstream? || e.Elsewhere?)
    ensures Step(s, e).rows == s.rows
  {
    hide Targets;
  }

  lemma StepReleases(s: World, e: Event)
    requires Enabled(s, e) && !Succeeds(s, e)
    ensures RowsReleased(s.rows, Step(s, e).rows)
  {
    hide Step, Enabled, Succeeds;
    if e.Rollback? || e.Upsert? || e.Delete? { ServiceReleases(s, e); }
    else if e.ApproveIt? || e.Replace? || e.Replaced? || e.BeginShadow? || e.Mismatch? { DecisionsKeepRows(s, e); }
    else if e.EndShadow? { FailedKeepsRows(s, e); }
    else if Working(e) { FinalizerReleases(s, e); }
    else { RestKeepsRows(s, e); }
  }

  /** A step that retires nothing adds no link and changes none. */
  lemma QuietLinks(s: World, e: Event)
    requires Inv(s) && Enabled(s, e) && !Succeeds(s, e)
    ensures forall m :: m in Chains(Step(s, e)) ==> m in Chains(s) && Chains(s)[m] == Chains(Step(s, e))[m]
  {
    var t := Step(s, e);
    StepReleases(s, e);
    hide Step, Enabled, Succeeds, Inv;
    forall m | m in Chains(t) ensures m in Chains(s) && Chains(s)[m] == Chains(t)[m] {
      var id := t.rows[m].shadowedBy.value;
      assert RetiredBy(s, m, id);
      LinkStable(s, e, m, id);
    }
  }

  // ---------------------------------------------------------------- successful shadowings

  lemma SucceededIs(s: World, e: Event)
    requires Succeeds(s, e)
    ensures var id, t := s.shadows[e.attempt].proposal, Step(s, e);
      && t.rows == Retire(s.rows, id, s.proposals[id]) && t.proposals.Keys == s.proposals.Keys
      && forall j :: j in s.proposals ==> t.proposals[j].canonical == s.proposals[j].canonical
  {
    hide SourcesFit, Retire, Targets;
  }

  lemma SameCanonicals(rows: Rows, p: Proposals, q: Proposals)
    requires p.Keys == q.Keys && forall j :: j in p ==> q[j].canonical == p[j].canonical
    ensures LinksOf(rows, q) == LinksOf(rows, p)
  {
  }

  /** Without a canonical, a shadowing adds no links. */
  lemma NoCanonical(s: World, id: nat, hashes: Hashes)
    requires Inv(s) && id in s.proposals && SourcesFit(s.rows, s.proposals[id], hashes) && s.proposals[id].canonical.None?
    ensures var links := LinksOf(Retire(s.rows, id, s.proposals[id]), s.proposals);
      forall m :: m in links ==> m in Chains(s) && Chains(s)[m] == links[m]
  {
    hide Inv, SourcesFit, Targets;
  }

  lemma StepAcyclic(s: World, e: Event)
    requires Inv(s) && Enabled(s, e) && !Cyclic(Chains(s))
    ensures !Cyclic(Chains(Step(s, e))) <==> !Closes(s, e)
  {
    if !Succeeds(s, e) {
      QuietLinks(s, e);
      hide Step, Enabled, Succeeds, Inv, Chains, Cyclic;
      LessAcyclic(Chains(Step(s, e)), Chains(s));
    } else {
      var Shadow(id, hashes) := s.shadows[e.attempt];
      var p, t := s.proposals[id], Step(s, e);
      SucceededIs(s, e);
      hide Step, Inv, SourcesFit, Retire, Targets, LinksOf, Cyclic, Leads;
      SameCanonicals(t.rows, s.proposals, t.proposals);
      if p.canonical.Some? {
        ShadowingKeepsAcyclic(s, id, hashes, p.canonical.value);
      } else {
        NoCanonical(s, id, hashes);
        LessAcyclic(Chains(t), Chains(s));
      }
    }
  }

  // ---------------------------------------------------------------- runs

  /** No state along the run has a cycle. */
  ghost predicate StaysAcyclic(s: World, es: seq<Event>)
    decreases |es|
  {
    !Cyclic(Chains(s)) && (es != [] && Enabled(s, es[0]) ==> StaysAcyclic(Step(s, es[0]), es[1..]))
  }

  ghost predicate EverCloses(s: World, es: seq<Event>)
    decreases |es|
  {
    es != [] && (Closes(s, es[0]) || (Enabled(s, es[0]) && EverCloses(Step(s, es[0]), es[1..])))
  }

  /** A run without a cycle at its start has none at any time exactly if no shadowing closes one. */
  lemma {:induction false} RunAcyclicIff(s: World, es: seq<Event>, t: World)
    requires Inv(s) && Run(s, es, t) && !Cyclic(Chains(s))
    ensures StaysAcyclic(s, es) <==> !EverCloses(s, es)
    decreases |es|
  {
    if es != [] {
      StepAcyclic(s, es[0]);
      StepKeeps(s, es[0]);
      hide Inv, Step, Enabled, Closes, Cyclic, Chains;
      if !Closes(s, es[0]) { RunAcyclicIff(Step(s, es[0]), es[1..], t); }
    }
  }

  lemma NoLinks(links: Links)
    requires links == map[]
    ensures !Cyclic(links)
  {
  }

  /** From the empty service on: every run, with every kind of canonical. */
  lemma ServiceAcyclicIff(now: int, es: seq<Event>, t: World)
    requires Run(Start(now), es, t)
    ensures StaysAcyclic(Start(now), es) <==> !EverCloses(Start(now), es)
  {
    StartKeeps(now);
    NoLinks(Chains(Start(now)));
    RunAcyclicIff(Start(now), es, t);
  }
}
