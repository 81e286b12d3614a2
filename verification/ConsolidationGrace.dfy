// The grace period over whole runs: between a shadowing and its deadline no
// finalizer begins and nothing is deleted on its account; from then on it may.
module ConsolidationGrace {
  import opened Consolidation
  import opened ConsolidationEffects
  import opened ConsolidationMoves
  import opened ConsolidationFinalizing
  import opened ConsolidationRerun
  import opened Wrappers

  /** While the proposal is shadowed, it is so with this deadline. */
  ghost predicate Deadline(s: World, id: nat, n: int) {
    id in s.proposals && (s.proposals[id].status == ShadowedStatus ==> s.proposals[id].notBefore == Some(n))
  }

  /** The event shadows the proposal again. */
  ghost predicate Reshadows(s: World, e: Event, id: nat) {
    e.EndShadow? && Enabled(s, e) && s.shadows[e.attempt].proposal == id && Succeeding(s, e.attempt, e.job, e.upstreamMatches)
  }

  ghost predicate RunWithout(s: World, es: seq<Event>, t: World, id: nat)
    decreases |es|
  {
    if es == [] then s == t
    else Enabled(s, es[0]) && !Reshadows(s, es[0], id) && RunWithout(Step(s, es[0]), es[1..], t, id)
  }

  // ---------------------------------------------------------------- the deadline stays

  lemma DecisionDeadline(s: World, e: Event, id: nat, n: int)
    requires Deadline(s, id, n) && Enabled(s, e) && (e.ApproveIt? || e.Replace? || e.Replaced?)
    ensures Deadline(Step(s, e), id, n) && Step(s, e).now == s.now
  {
    hide Intact, Step;
    match e
    case ApproveIt(j, a, policy) => Approves(s, j, a, policy);
    case Replace(r, j, hashes, policy) => ReplacementAsked(s, r, j, hashes, policy);
    case Replaced(r, memory, hash) => ReplacedDeadline(s, r, memory, hash, id, n);
  }

  lemma ReplacedDeadline(s: World, r: nat, memory: string, hash: string, id: nat, n: int)
    requires Deadline(s, id, n) && Enabled(s, Replaced(r, memory, hash))
    ensures Deadline(Step(s, Replaced(r, memory, hash)), id, n) && Step(s, Replaced(r, memory, hash)).now == s.now
  {
    hide Intact, Step;
    ReplacementDecides(s, r, memory, hash);
  }

  lemma ShadowingDeadline(s: World, e: Event, id: nat, n: int)
    requires Deadline(s, id, n) && Enabled(s, e) && (e.BeginShadow? || e.Mismatch? || e.EndShadow?) && !Reshadows(s, e, id)
    ensures Deadline(Step(s, e), id, n) && Step(s, e).now == s.now
  {
    hide Intact, RetiredFor, Step;
    match e
    case BeginShadow(attempt, j, lease, ready) => ShadowingBegins(s, attempt, j, lease, ready);
    case Mismatch(attempt) => MismatchEnds(s, attempt);
    case EndShadow(_, _, _, _) => EndDeadline(s, e, id, n);
  }

  lemma EndProposal(s: World, attempt: nat, job: Export, upstreamMatches: bool, grace: nat, id: nat)
    requires Enabled(s, EndShadow(attempt, job, upstreamMatches, grace)) && id in s.proposals
    ensures var t := ShadowedStep(s, attempt, job, upstreamMatches, grace);
      && t.now == s.now && id in t.proposals
      && (t.proposals[id] == s.proposals[id] || (s.shadows[attempt].proposal == id
            && (t.proposals[id].status == ShadowedStatus ==> Succeeding(s, attempt, job, upstreamMatches))))
  {
    hide SourcesFit, Intact, Retire, Targets;
    IntactIs(s.rows, s.proposals[s.shadows[attempt].proposal], s.shadows[attempt].hashes);
  }

  lemma EndDeadline(s: World, e: Event, id: nat, n: int)
    requires Deadline(s, id, n) && Enabled(s, e) && e.EndShadow? && !Reshadows(s, e, id)
    ensures Deadline(Step(s, e), id, n) && Step(s, e).now == s.now
  {
    hide ShadowedStep, Succeeding;
    EndProposal(s, e.attempt, e.job, e.upstreamMatches, e.grace, id);
  }

  lemma OtherDeadline(s: World, e: Event, id: nat, n: int)
    requires Deadline(s, id, n) && Enabled(s, e)
    requires e.Tick? || e.Propose? || e.Rollback? || e.Upsert? || e.Delete? || e.Upstream? || e.Elsewhere? || e.BeginFinalize?
    ensures Deadline(Step(s, e), id, n) && s.now <= Step(s, e).now
  {
    hide RollbackRows, Targets;
  }

  lemma WorkingDeadline(s: World, e: Event, id: nat, n: int)
    requires Deadline(s, id, n) && Enabled(s, e) && Working(e)
    ensures Deadline(Step(s, e), id, n) && Step(s, e).now == s.now
  {
    assert e.f in s.finalizers;
    hide Step, Enabled, OneMoved;
    if Moving(e) { MovingMoves(s, e); } else { DecidingDecides(s, e); }
  }

  lemma StepDeadline(s: World, e: Event, id: nat, n: int)
    requires Deadline(s, id, n) && Enabled(s, e) && !Reshadows(s, e, id)
    ensures Deadline(Step(s, e), id, n) && s.now <= Step(s, e).now
  {
    hide Deadline, Step, Enabled, Reshadows;
    if e.ApproveIt? || e.Replace? || e.Replaced? { DecisionDeadline(s, e, id, n); }
    else if e.BeginShadow? || e.Mismatch? || e.EndShadow? { ShadowingDeadline(s, e, id, n); }
    else if Working(e) { WorkingDeadline(s, e, id, n); }
    else { OtherDeadline(s, e, id, n); }
  }

  // ---------------------------------------------------------------- nothing begins before it

  /** Finalizers with ids in `early` aside: none works on the proposal, and none has asked upstream to delete since entry `from`. */
  ghost predicate Still(s: World, id: nat, early: set<nat>, from: nat) {
    && (forall f :: f in s.finalizers && s.finalizers[f].proposal == id ==> f in early)
    && (forall k :: from <= k < |s.log| && s.log[k].Called? && s.log[k].proposal == id ==> s.log[k].f in early)
  }

  /** At most one entry is new, and if it is a request to delete, a finalizer of that proposal has made it. */
  ghost predicate Logged(s: World, e: Event, t: World) {
    || t.log == s.log
    || (&& |t.log| == |s.log| + 1 && t.log == s.log + [t.log[|s.log|]]
        && var x := t.log[|s.log|];
          x.Called? ==> x.f in s.finalizers && x.proposal == s.finalizers[x.f].proposal)
  }

  lemma OtherLogged(s: World, e: Event, t: World)
    requires LogsOther(s.log, t.log)
    ensures Logged(s, e, t)
  {
  }

  lemma WorkingLogged(s: World, e: Event)
    requires Working(e) && e.f in s.finalizers && Ready(s, e)
    ensures Logged(s, e, FinalizerStep(s, e))
  {
    hide Logged, LookStep, CheckStep, ClaimStep, ObserveStep, OpenStep, AskStep, CommitStep, VerifyStep, RecordStep, ApplyStep, Stop;
    match e
    case Look(f) => LookPhase(s, f); OtherLogged(s, e, LookStep(s, f));
    case Check(f, answered) => CheckLogged(s, f, answered);
    case Verify(f, answered) => VerifyLogged(s, f, answered);
    case Ask(f, response) => AskLogged(s, f, response);
    case Record(f) => RecordLogged(s, f);
    case Apply(f) => ApplyLogged(s, f);
    case Crash(f) => ApplyLogged(s, f);
    case _ => InnerLogged(s, e);
  }

  lemma CheckLogged(s: World, f: nat, answered: bool)
    requires InPhase(s, f, Checking)
    ensures Logged(s, Check(f, answered), CheckStep(s, f, answered))
  {
    hide UpstreamMatches, CanonicalMatches;
  }

  lemma VerifyLogged(s: World, f: nat, answered: bool)
    requires InPhase(s, f, Verifying)
    ensures Logged(s, Verify(f, answered), VerifyStep(s, f, answered))
  {
  }

  lemma AskLogged(s: World, f: nat, response: Response)
    requires Busy(s, f) && s.finalizers[f].phase.Asking?
    ensures Logged(s, Ask(f, response), AskStep(s, f, response))
  {
    AskPhase(s, f, response);
    hide AskStep;
  }

  lemma RecordLogged(s: World, f: nat)
    requires Busy(s, f)
    ensures Logged(s, Record(f), RecordStep(s, f))
  {
  }

  lemma ApplyLogged(s: World, f: nat)
    requires f in s.finalizers
    ensures s.finalizers[f].proposal in s.proposals ==> Logged(s, Apply(f), ApplyStep(s, f))
    ensures Logged(s, Crash(f), Stop(s, f))
  {
  }

  lemma InnerLogged(s: World, e: Event)
    requires InDelete(e) && e.f in s.finalizers && Ready(s, e)
    ensures Logged(s, e, FinalizerStep(s, e))
  {
    hide ClaimStep, ObserveStep, OpenStep, CommitStep, Logged;
    DeletingPhase(s, e);
    assert Step(s, e) == FinalizerStep(s, e);
    assert Logged(s, e, FinalizerStep(s, e)) by { SameLogged(s, e, FinalizerStep(s, e)); }
  }

  lemma SameLogged(s: World, e: Event, t: World)
    requires t.log == s.log
    ensures Logged(s, e, t)
  {
  }

  lemma BeginLogged(s: World, f: nat, id: nat, enabled: bool)
    requires id in s.proposals
    ensures Logged(s, BeginFinalize(f, id, enabled), FinalizeStep(s, f, id, enabled))
  {
    hide Targets;
  }

  lemma StepLogged(s: World, e: Event)
    requires Enabled(s, e)
    ensures Logged(s, e, Step(s, e))
  {
    hide Logged, FinalizeStep, FinalizerStep, Ready;
    if !Finalizing(e) {
      OthersAlone(s, e);
      SameLogged(s, e, Step(s, e));
    } else if e.BeginFinalize? {
      BeginLogged(s, e.f, e.id, e.enabled);
    } else {
      WorkingLogged(s, e);
    }
  }

  lemma StillKept(s: World, e: Event, id: nat, early: set<nat>, from: nat, n: int)
    requires Still(s, id, early, from) && from <= |s.log| && Deadline(s, id, n) && s.now < n && Enabled(s, e) && s.finalizers.Keys <= s.used
    ensures Still(Step(s, e), id, early, from)
  {
    var t := Step(s, e);
    StepLogged(s, e);
    if !Finalizing(e) {
      OthersAlone(s, e);
      hide Step, Enabled, Deadline;
    } else if e.BeginFinalize? {
      BeginLate(s, e.f, e.id, e.enabled, id, n);
      hide Step, Enabled, Deadline;
    } else {
      FinalizerKept(s, e);
      hide Step, Enabled, Deadline;
    }
  }

  lemma BeginLate(s: World, f: nat, j: nat, enabled: bool, id: nat, n: int)
    requires Enabled(s, BeginFinalize(f, j, enabled)) && Deadline(s, id, n) && s.now < n
    ensures var t := Step(s, BeginFinalize(f, j, enabled));
      t.finalizers == s.finalizers || (j != id && f in t.finalizers && t.finalizers == s.finalizers[f := t.finalizers[f]] && t.finalizers[f].proposal == j)
  {
    hide Targets;
  }

  /** Until the deadline nothing begins, and nothing is asked to be deleted, except by finalizers that were at work before. */
  lemma {:induction false} NothingBefore(s: World, es: seq<Event>, t: World, id: nat, early: set<nat>, from: nat, n: int)
    requires RunWithout(s, es, t, id) && Deadline(s, id, n) && s.finalizers.Keys <= s.used && from <= |s.log|
    requires s.now < n ==> Still(s, id, early, from)
    ensures Deadline(t, id, n) && s.now <= t.now && (t.now < n ==> Still(t, id, early, from))
    decreases |es|
  {
    if es != [] {
      StepDeadline(s, es[0], id, n);
      UsedStep(s, es[0]);
      StepLogged(s, es[0]);
      if s.now < n { StillKept(s, es[0], id, early, from, n); }
      hide Deadline, Still, Step, Enabled, Reshadows;
      NothingBefore(Step(s, es[0]), es[1..], t, id, early, from, n);
    }
  }

  /**
   * A proposal is shadowed at some time.  In every continuation in which it is not shadowed again: before the grace period is
   * over, only finalizers that had begun before the shadowing work on it, and only they have asked upstream to delete for it.
   */
  lemma GraceHolds(s: World, e: Event, es: seq<Event>, t: World, id: nat)
    requires Reshadows(s, e, id) && s.finalizers.Keys <= s.used && RunWithout(Step(s, e), es, t, id) && t.now < s.now + e.grace
    ensures forall f :: f in t.finalizers && t.finalizers[f].proposal == id ==> f in s.finalizers
    ensures forall k :: |s.log| <= k < |t.log| && t.log[k].Called? && t.log[k].proposal == id ==> t.log[k].f in s.finalizers
  {
    ShadowingEnds(s, e.attempt, e.job, e.upstreamMatches, e.grace);
    OthersAlone(s, e);
    UsedStep(s, e);
    var n := s.now + e.grace;
    hide Step, Enabled, RunWithout, Intact, RetiredFor;
    assert Deadline(Step(s, e), id, n) && Still(Step(s, e), id, s.finalizers.Keys, |s.log|) && |Step(s, e).log| == |s.log|;
    NothingBefore(Step(s, e), es, t, id, s.finalizers.Keys, |s.log|, n);
  }

  /** From then on a finalizer may begin, if the proposal is still shadowed; and not earlier. */
  lemma GraceEnds(s: World, e: Event, es: seq<Event>, t: World, id: nat, f: nat)
    requires Reshadows(s, e, id) && s.finalizers.Keys <= s.used && RunWithout(Step(s, e), es, t, id)
    requires Enabled(t, BeginFinalize(f, id, true)) && t.proposals[id].status == ShadowedStatus && t.proposals[id].exportId.Some?
    requires f !in t.finalizers
    ensures f in Step(t, BeginFinalize(f, id, true)).finalizers <==> s.now + e.grace <= t.now
  {
    ShadowingEnds(s, e.attempt, e.job, e.upstreamMatches, e.grace);
    OthersAlone(s, e);
    UsedStep(s, e);
    var n := s.now + e.grace;
    assert Deadline(Step(s, e), id, n);
    if Step(s, e).now < n { assert Still(Step(s, e), id, s.finalizers.Keys, |s.log|) && |Step(s, e).log| == |s.log|; }
    hide RunWithout, Intact, RetiredFor, SourcesFit, ShadowedStep, Still;
    NothingBefore(Step(s, e), es, t, id, s.finalizers.Keys, |s.log|, n);
    Begins(t, f, id);
  }

  lemma Begins(t: World, f: nat, id: nat)
    requires Enabled(t, BeginFinalize(f, id, true)) && t.proposals[id].status == ShadowedStatus && t.proposals[id].exportId.Some?
    requires f !in t.finalizers && t.proposals[id].notBefore.Some?
    ensures f in Step(t, BeginFinalize(f, id, true)).finalizers <==> t.proposals[id].notBefore.value <= t.now
  {
    hide Targets;
  }
}
