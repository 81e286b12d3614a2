// What a retired memory points to, what rollbacks bring back, and what lost
// attempts can and cannot do.
module ConsolidationOutcomes {
  import opened Consolidation
  import opened ConsolidationMoves
  import opened ConsolidationTheorems
  import opened Wrappers

  // ---------------------------------------------------------------- a retired memory keeps its canonical

  ghost predicate RetiredBy(s: World, m: string, id: nat) { Gone(s.rows, m) && s.rows[m].shadowedBy == Some(id) }

  /** A memory retired by a proposal stays so until it is active again, and the proposal keeps its canonical meanwhile. */
  ghost predicate KeepsLink(s: World, t: World, m: string, id: nat) {
    && m in t.rows && (RetiredBy(t, m, id) || t.rows[m].state.Active?)
    && id in s.proposals && id in t.proposals
    && (RetiredBy(t, m, id) ==> t.proposals[id].canonical == s.proposals[id].canonical)
  }

  lemma MarkedKnown(s: World, m: string, id: nat)
    requires Inv(s) && RetiredBy(s, m, id)
    ensures id in s.proposals && IsTarget(s.proposals[id], m)
  {
    assert Marked(s.rows, m, id);
  }

  /** Approving a proposal that has retired something is impossible: its sources are not all active. */
  lemma RetiredUnfit(s: World, m: string, id: nat, hashes: Hashes)
    requires Inv(s) && RetiredBy(s, m, id)
    ensures id in s.proposals && !SourcesFit(s.rows, s.proposals[id], hashes)
  {
    MarkedKnown(s, m, id);
    assert m in hashes ==> !SourceFits(s.rows[m], s.proposals[id].app, hashes[m]);
  }

  lemma TargetsActive(s: World, id: nat, hashes: Hashes, m: string)
    requires id in s.proposals && SourcesFit(s.rows, s.proposals[id], hashes) && m in Targets(s.proposals[id])
    ensures m in s.rows && s.rows[m].state.Active?
  {
    SourceActive(s, id, hashes, m);
  }

  lemma ShadowedKeepsLink(s: World, attempt: nat, job: Export, upstreamMatches: bool, grace: nat, m: string, id: nat)
    requires Inv(s) && Enabled(s, EndShadow(attempt, job, upstreamMatches, grace)) && RetiredBy(s, m, id)
    ensures KeepsLink(s, ShadowedStep(s, attempt, job, upstreamMatches, grace), m, id)
  {
    MarkedKnown(s, m, id);
    var Shadow(other, hashes) := s.shadows[attempt];
    if SourcesFit(s.rows, s.proposals[other], hashes) && m in Targets(s.proposals[other]) {
      TargetsActive(s, other, hashes, m);
    }
    hide Inv, SourcesFit, Targets;
  }

  /** A change to one proposal that does not let go of a canonical in use. */
  lemma CanonicalKept(s: World, t: World, m: string, id: nat, other: nat)
    requires RetiredBy(s, m, id) && id in s.proposals && other in s.proposals && other in t.proposals
    requires t.rows == s.rows && t.proposals == s.proposals[other := t.proposals[other]]
    requires other == id ==> t.proposals[id].canonical == s.proposals[id].canonical
    ensures KeepsLink(s, t, m, id)
  {
  }

  lemma ApprovalKeepsLink(s: World, e: Event, m: string, id: nat)
    requires Inv(s) && Enabled(s, e) && RetiredBy(s, m, id) && id in s.proposals
    requires e.ApproveIt? || e.Replaced?
    ensures KeepsLink(s, Step(s, e), m, id)
  {
    RetiredUnfit(s, m, id, if e.ApproveIt? then e.a.hashes else s.replacing[e.r].1);
    hide Inv, SourcesFit, MayApprove, Approve, KeepsLink, RetiredBy;
    if e.ApproveIt? {
      CanonicalKept(s, Step(s, e), m, id, e.id);
    } else {
      CanonicalKept(s, Step(s, e), m, id, s.replacing[e.r].0);
    }
  }

  lemma BeginKeepsLink(s: World, attempt: nat, other: nat, lease: nat, ready: bool, m: string, id: nat)
    requires other in s.proposals && RetiredBy(s, m, id) && id in s.proposals
    ensures KeepsLink(s, ShadowStep(s, attempt, other, lease, ready), m, id)
  {
    hide SourcesFit, LeaseLive, KeepsLink, RetiredBy;
    assert s.proposals[other := s.proposals[other]] == s.proposals;
    CanonicalKept(s, ShadowStep(s, attempt, other, lease, ready), m, id, other);
  }

  lemma ReplaceKeepsLink(s: World, r: nat, other: nat, hashes: Hashes, policy: bool, m: string, id: nat)
    requires other in s.proposals && RetiredBy(s, m, id) && id in s.proposals
    ensures KeepsLink(s, ReplaceStep(s, r, other, hashes, policy), m, id)
  {
    hide SourcesFit, KeepsLink, RetiredBy;
    assert s.proposals[other := s.proposals[other]] == s.proposals;
    CanonicalKept(s, ReplaceStep(s, r, other, hashes, policy), m, id, other);
  }

  lemma StatusKeepsLink(s: World, e: Event, m: string, id: nat)
    requires Inv(s) && Enabled(s, e) && RetiredBy(s, m, id) && id in s.proposals
    requires e.BeginShadow? || e.Mismatch? || e.Replace?
    ensures KeepsLink(s, Step(s, e), m, id)
  {
    hide Inv, ShadowStep, ReplaceStep;
    match e
    case BeginShadow(attempt, other, lease, ready) => BeginKeepsLink(s, attempt, other, lease, ready, m, id);
    case Replace(r, other, hashes, policy) => ReplaceKeepsLink(s, r, other, hashes, policy, m, id);
    case Mismatch(attempt) =>
  }

  lemma DecidingKeepsLink(s: World, e: Event, m: string, id: nat)
    requires Enabled(s, e) && RetiredBy(s, m, id) && id in s.proposals && Deciding(e)
    ensures KeepsLink(s, Step(s, e), m, id)
  {
    DecidingDecides(s, e);
    hide Step, Enabled, KeepsLink, RetiredBy;
    CanonicalKept(s, Step(s, e), m, id, s.finalizers[e.f].proposal);
  }

  lemma OtherKeepsLink(s: World, e: Event, m: string, id: nat)
    requires Enabled(s, e) && RetiredBy(s, m, id) && id in s.proposals
    requires e.Tick? || e.Propose? || e.BeginFinalize? || e.Upstream? || e.Elsewhere?
    ensures KeepsLink(s, Step(s, e), m, id)
  {
    hide Targets;
  }

  lemma MovingKeepsLink(s: World, e: Event, m: string, id: nat)
    requires Enabled(s, e) && RetiredBy(s, m, id) && id in s.proposals && Moving(e)
    ensures KeepsLink(s, Step(s, e), m, id)
  {
    MovingMoves(s, e);
    hide Step, Enabled;
  }

  lemma RowsKeepLink(s: World, e: Event, m: string, id: nat)
    requires Enabled(s, e) && RetiredBy(s, m, id) && id in s.proposals && (e.Rollback? || e.Upsert? || e.Delete?)
    ensures KeepsLink(s, Step(s, e), m, id)
  {
  }

  /** Single-valued: whatever happens, a retired memory points to one canonical until it is active again. */
  lemma LinkStable(s: World, e: Event, m: string, id: nat)
    requires Inv(s) && Enabled(s, e) && RetiredBy(s, m, id)
    ensures KeepsLink(s, Step(s, e), m, id)
  {
    MarkedKnown(s, m, id);
    if e.EndShadow? {
      ShadowedKeepsLink(s, e.attempt, e.job, e.upstreamMatches, e.grace, m, id);
      hide Inv, KeepsLink, ShadowedStep;
    } else if e.ApproveIt? || e.Replaced? {
      hide Inv, KeepsLink, Step;
      ApprovalKeepsLink(s, e, m, id);
    } else if e.BeginShadow? || e.Mismatch? || e.Replace? {
      hide Inv, KeepsLink, Step;
      StatusKeepsLink(s, e, m, id);
    } else {
      hide Inv, KeepsLink, Step;
      if e.Rollback? || e.Upsert? || e.Delete? { RowsKeepLink(s, e, m, id); }
      else if Deciding(e) { DecidingKeepsLink(s, e, m, id); }
      else if Moving(e) { MovingKeepsLink(s, e, m, id); }
      else { OtherKeepsLink(s, e, m, id); }
    }
  }

  // ---------------------------------------------------------------- rollback

  /** A rollback makes active exactly the live rows this proposal retired that are still in its application. */
  lemma RollbackExact(s: World, id: nat, m: string)
    requires Inv(s) && id in s.proposals && s.proposals[id].status.ShadowedStatus? && m in s.rows
    ensures var t := RollbackStep(s, id);
      && t.proposals[id].status.RolledBack? && t.proposals[id].notBefore.None?
      && m in t.rows
      && (if Restores(s.rows[m], id, s.proposals[id])
          then t.rows[m] == s.rows[m].(state := Active, shadowedBy := None)
          else t.rows[m] == s.rows[m])
  {
    if Restores(s.rows[m], id, s.proposals[id]) { MarkedKnown(s, m, id); }
  }

  /** It brings back every live memory the proposal retired exactly if none of them has moved to another application. */
  lemma RollbackComplete(s: World, id: nat)
    requires Inv(s) && id in s.proposals && s.proposals[id].status.ShadowedStatus?
    ensures (forall m :: RetiredBy(s, m, id) && s.rows[m].live ==> RollbackStep(s, id).rows[m].state.Active?)
      <==> (forall m :: RetiredBy(s, m, id) && s.rows[m].live ==> s.rows[m].app == s.proposals[id].app)
  {
    var t := RollbackStep(s, id);
    forall m | RetiredBy(s, m, id) && s.rows[m].live
      ensures t.rows[m].state.Active? <==> s.rows[m].app == s.proposals[id].app {
      RollbackExact(s, id, m);
    }
    hide Inv, RollbackStep;
  }

  // ---------------------------------------------------------------- attempts

  /** Attempt `a` does not own its proposal any more. */
  ghost predicate LostAttempt(s: World, a: nat) {
    a in s.used && forall id :: id in s.proposals ==> !Owns(s.proposals[id], a)
  }

  /** No step gives an old attempt a proposal it did not own. */
  ghost predicate NoRegain(s: World, t: World, a: nat) {
    && s.used <= t.used
    && forall id :: id in t.proposals && Owns(t.proposals[id], a) ==> id in s.proposals && Owns(s.proposals[id], a)
  }

  /** One proposal changes, and is owned by `a` afterwards only if it was before. */
  lemma OneNoRegain(s: World, t: World, id: nat, a: nat)
    requires s.used <= t.used && id in t.proposals && t.proposals == s.proposals[id := t.proposals[id]]
    requires Owns(t.proposals[id], a) ==> id in s.proposals && Owns(s.proposals[id], a)
    ensures NoRegain(s, t, a)
  {
  }

  lemma ApproveNoRegain(s: World, id: nat, approval: Approval, policy: bool, a: nat)
    requires id in s.proposals
    ensures NoRegain(s, ApproveStep(s, id, approval, policy), a)
  {
    hide SourcesFit, MayApprove, NoRegain;
    SelfPut(s, id);
    OneNoRegain(s, ApproveStep(s, id, approval, policy), id, a);
  }

  lemma ReplaceNoRegain(s: World, r: nat, id: nat, hashes: Hashes, policy: bool, a: nat)
    requires id in s.proposals
    ensures NoRegain(s, ReplaceStep(s, r, id, hashes, policy), a)
  {
    hide SourcesFit, NoRegain;
    SelfPut(s, id);
    OneNoRegain(s, ReplaceStep(s, r, id, hashes, policy), id, a);
  }

  lemma ReplacedNoRegain(s: World, r: nat, memory: string, hash: string, a: nat)
    requires Enabled(s, Replaced(r, memory, hash))
    ensures NoRegain(s, ReplacedStep(s, r, memory, hash), a)
  {
    hide SourcesFit, NoRegain;
    OneNoRegain(s, ReplacedStep(s, r, memory, hash), s.replacing[r].0, a);
  }

  lemma DecisionNoRegain(s: World, e: Event, a: nat)
    requires Enabled(s, e) && (e.ApproveIt? || e.Replace? || e.Replaced? || e.Rollback? || e.Propose?)
    ensures NoRegain(s, Step(s, e), a)
  {
    hide ApproveStep, ReplaceStep, ReplacedStep, RollbackRows;
    match e
    case ApproveIt(id, approval, policy) => ApproveNoRegain(s, id, approval, policy, a);
    case Replace(r, id, hashes, policy) => ReplaceNoRegain(s, r, id, hashes, policy, a);
    case Replaced(r, memory, hash) => ReplacedNoRegain(s, r, memory, hash, a);
    case _ =>
  }

  lemma BeginNoRegain(s: World, attempt: nat, id: nat, lease: nat, ready: bool, a: nat)
    requires Enabled(s, BeginShadow(attempt, id, lease, ready)) && a in s.used
    ensures NoRegain(s, ShadowStep(s, attempt, id, lease, ready), a)
  {
    hide SourcesFit, LeaseLive, NoRegain;
    SelfPut(s, id);
    OneNoRegain(s, ShadowStep(s, attempt, id, lease, ready), id, a);
  }

  lemma MismatchNoRegain(s: World, attempt: nat, a: nat)
    requires Enabled(s, Mismatch(attempt))
    ensures NoRegain(s, MismatchStep(s, attempt), a)
  {
    hide NoRegain;
    SelfPut(s, s.shadows[attempt].proposal);
    OneNoRegain(s, MismatchStep(s, attempt), s.shadows[attempt].proposal, a);
  }

  lemma ShadowedNoRegain(s: World, attempt: nat, job: Export, upstreamMatches: bool, grace: nat, a: nat)
    requires Enabled(s, EndShadow(attempt, job, upstreamMatches, grace))
    ensures NoRegain(s, ShadowedStep(s, attempt, job, upstreamMatches, grace), a)
  {
    hide SourcesFit, Retire, Targets, NoRegain;
    SelfPut(s, s.shadows[attempt].proposal);
    OneNoRegain(s, ShadowedStep(s, attempt, job, upstreamMatches, grace), s.shadows[attempt].proposal, a);
  }

  lemma ShadowNoRegain(s: World, e: Event, a: nat)
    requires Enabled(s, e) && (e.BeginShadow? || e.Mismatch? || e.EndShadow?) && a in s.used
    ensures NoRegain(s, Step(s, e), a)
  {
    hide NoRegain, ShadowStep, MismatchStep, ShadowedStep;
    match e
    case BeginShadow(attempt, id, lease, ready) => BeginNoRegain(s, attempt, id, lease, ready, a);
    case Mismatch(attempt) => MismatchNoRegain(s, attempt, a);
    case EndShadow(attempt, job, upstreamMatches, grace) => ShadowedNoRegain(s, attempt, job, upstreamMatches, grace, a);
  }

  lemma FinalizerNoRegain(s: World, e: Event, a: nat)
    requires Enabled(s, e) && (Deciding(e) || Moving(e))
    ensures NoRegain(s, Step(s, e), a)
  {
    if Deciding(e) { DecidingDecides(s, e); } else { MovingMoves(s, e); }
    hide Step, Enabled;
  }

  lemma OtherNoRegain(s: World, e: Event, a: nat)
    requires Enabled(s, e)
    requires e.BeginFinalize? || e.Upsert? || e.Delete? || e.Tick? || e.Upstream? || e.Elsewhere?
    ensures NoRegain(s, Step(s, e), a)
  {
    hide Targets;
  }

  lemma LostStep(s: World, e: Event, a: nat)
    requires Enabled(s, e) && LostAttempt(s, a)
    ensures LostAttempt(Step(s, e), a)
  {
    assert NoRegain(s, Step(s, e), a) by {
      hide NoRegain, Step;
      if e.ApproveIt? || e.Replace? || e.Replaced? || e.Rollback? || e.Propose? { DecisionNoRegain(s, e, a); }
      else if e.BeginShadow? || e.Mismatch? || e.EndShadow? { ShadowNoRegain(s, e, a); }
      else if Deciding(e) || Moving(e) { FinalizerNoRegain(s, e, a); }
      else { OtherNoRegain(s, e, a); }
    }
    hide Step, Enabled;
  }

  /** An attempt that lost its proposal, to another attempt or another decision, never retires anything again. */
  lemma {:induction false} LostAttemptRetiresNothing(s: World, es: seq<Event>, t: World, a: nat, job: Export, upstreamMatches: bool, grace: nat)
    requires Inv(s) && Run(s, es, t) && LostAttempt(s, a) && Enabled(t, EndShadow(a, job, upstreamMatches, grace))
    ensures Step(t, EndShadow(a, job, upstreamMatches, grace)) == t.(shadows := t.shadows - {a})
    decreases |es|
  {
    if es != [] {
      LostStep(s, es[0], a);
      StepKeeps(s, es[0]);
      hide Inv, LostAttempt;
      LostAttemptRetiresNothing(Step(s, es[0]), es[1..], t, a, job, upstreamMatches, grace);
    }
  }

  /** A lease that is still running is never taken over; taking over leaves the earlier attempt lost. */
  lemma TakeoverLoses(s: World, attempt: nat, id: nat, lease: nat, ready: bool, a: nat)
    requires Inv(s) && Enabled(s, BeginShadow(attempt, id, lease, ready)) && Owns(s.proposals[id], a)
    ensures s.proposals[id].expires.Some?
    ensures s.now < s.proposals[id].expires.value ==> ShadowStep(s, attempt, id, lease, ready) == s
    ensures attempt in ShadowStep(s, attempt, id, lease, ready).shadows && attempt !in s.shadows ==>
      !Owns(ShadowStep(s, attempt, id, lease, ready).proposals[id], a) && s.proposals[id].expires.value <= s.now
  {
    SelfPut(s, id);
    hide SourcesFit, LinksInv;
  }
}
