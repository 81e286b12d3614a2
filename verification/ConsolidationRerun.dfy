// Crashes and reruns of the finalizer: as long as no two finalizers work on one
// proposal at a time, a finished target is never deleted again.
module ConsolidationRerun {
  import opened Consolidation
  import opened ConsolidationMoves
  import opened ConsolidationFinalizing

  // ---------------------------------------------------------------- no finished target is deleted again

  /** No two finalizers are at work on one proposal. */
  ghost predicate Solo(finalizers: map<nat, Finalizer>) {
    forall f, g :: f in finalizers && g in finalizers && finalizers[f].proposal == finalizers[g].proposal ==> f == g
  }

  /** A run in which a crashed finalizer may be followed by another, but none runs beside another. */
  ghost predicate SoloRun(s: World, es: seq<Event>, t: World)
    decreases |es|
  {
    Solo(s.finalizers) && if es == [] then s == t else Enabled(s, es[0]) && SoloRun(Step(s, es[0]), es[1..], t)
  }

  /** The target a finalizer is busy with has no lineage row. */
  ghost predicate Unrecorded(lineage: Lineage, z: Finalizer) {
    z.at < |z.targets| && !z.phase.Looking? ==> (z.proposal, z.targets[z.at]) !in lineage
  }

  ghost predicate BusyInv(s: World) { forall f :: f in s.finalizers ==> Unrecorded(s.lineage, s.finalizers[f]) }

  ghost predicate Repeats(first: Entry, second: Entry) {
    first.Recorded? && second.Called? && first.proposal == second.proposal && first.memory == second.memory
  }

  ghost predicate NoRepeat(log: Log) { forall j, k :: 0 <= j < k < |log| ==> !Repeats(log[j], log[k]) }

  lemma MoreLog(log: Log, e: Entry)
    requires NoRepeat(log) && (e.Called? ==> Recorded(e.proposal, e.memory) !in log)
    ensures NoRepeat(log + [e])
  {
    forall j, k | 0 <= j < k < |log| + 1 ensures !Repeats((log + [e])[j], (log + [e])[k]) {
      assert j < |log| && log[j] in log;
    }
  }

  lemma OneBusy(s: World, t: World, f: nat)
    requires BusyInv(s) && t.lineage == s.lineage && t.finalizers.Keys <= s.finalizers.Keys + {f}
    requires forall g :: g in t.finalizers && g != f ==> t.finalizers[g] == s.finalizers[g]
    requires f in t.finalizers ==> Unrecorded(t.lineage, t.finalizers[f])
    ensures BusyInv(t)
  {
  }

  /** At most one entry is added, and no request to delete. */
  ghost predicate LogsOther(log: Log, after: Log) {
    after == log || (|after| == |log| + 1 && after == log + [after[|log|]] && !after[|log|].Called?)
  }

  lemma OtherLog(log: Log, after: Log)
    requires NoRepeat(log) && LogsOther(log, after)
    ensures NoRepeat(after)
  {
    hide NoRepeat;
    if after != log { MoreLog(log, after[|log|]); }
  }

  lemma LookPhase(s: World, f: nat)
    requires InPhase(s, f, Looking)
    ensures var t := LookStep(s, f); LogsOther(s.log, t.log) && (f in t.finalizers ==> Unrecorded(t.lineage, t.finalizers[f]))
  {
    var id := s.finalizers[f].proposal;
    StopIs(s, f);
    FailIs(s, f, id);
    MoveIs(s, f, Checking);
    MoveIs(s, f, Verifying);
    hide TargetFits, RetiredHere, Stop, FailProposal, Move;
  }

  lemma FailIs(s: World, f: nat, id: nat)
    requires id in s.proposals
    ensures var t := FailProposal(s, f, id); f !in t.finalizers && t.log == s.log && t.lineage == s.lineage
  {
  }

  lemma LookBusy(s: World, f: nat)
    requires BusyInv(s) && NoRepeat(s.log) && InPhase(s, f, Looking)
    ensures BusyInv(LookStep(s, f)) && NoRepeat(LookStep(s, f).log)
  {
    LookPhase(s, f);
    LookDecides(s, f);
    OtherLog(s.log, LookStep(s, f).log);
    hide LookStep, BusyInv, NoRepeat, Unrecorded, LogsOther;
    OneBusy(s, LookStep(s, f), f);
  }

  lemma CheckPhase(s: World, f: nat, answered: bool)
    requires InPhase(s, f, Checking) && Unrecorded(s.lineage, s.finalizers[f])
    ensures var t := CheckStep(s, f, answered);
      LogsOther(s.log, t.log) && t.lineage == s.lineage && (f in t.finalizers ==> Unrecorded(t.lineage, t.finalizers[f]))
  {
    hide UpstreamMatches, CanonicalMatches;
  }

  lemma CheckBusy(s: World, f: nat, answered: bool)
    requires BusyInv(s) && NoRepeat(s.log) && InPhase(s, f, Checking)
    ensures BusyInv(CheckStep(s, f, answered)) && NoRepeat(CheckStep(s, f, answered).log)
  {
    CheckPhase(s, f, answered);
    CheckMoves(s, f, answered);
    OtherLog(s.log, CheckStep(s, f, answered).log);
    hide CheckStep, BusyInv, NoRepeat, Unrecorded, LogsOther;
    OneBusy(s, CheckStep(s, f, answered), f);
  }

  lemma VerifyPhase(s: World, f: nat, answered: bool)
    requires InPhase(s, f, Verifying) && Unrecorded(s.lineage, s.finalizers[f])
    ensures var t := VerifyStep(s, f, answered); LogsOther(s.log, t.log) && (f in t.finalizers ==> Unrecorded(t.lineage, t.finalizers[f]))
  {
    StopIs(s, f);
    FailIs(s, f, s.finalizers[f].proposal);
    MoveIs(s, f, Recording);
    hide Stop, FailProposal, Move;
  }

  lemma VerifyBusy(s: World, f: nat, answered: bool)
    requires BusyInv(s) && NoRepeat(s.log) && InPhase(s, f, Verifying)
    ensures BusyInv(VerifyStep(s, f, answered)) && NoRepeat(VerifyStep(s, f, answered).log)
  {
    VerifyPhase(s, f, answered);
    VerifyDecides(s, f, answered);
    OtherLog(s.log, VerifyStep(s, f, answered).log);
    hide VerifyStep, BusyInv, NoRepeat, Unrecorded, LogsOther;
    OneBusy(s, VerifyStep(s, f, answered), f);
  }

  lemma AskBusy(s: World, f: nat, response: Response)
    requires BusyInv(s) && NoRepeat(s.log) && Enabled(s, Ask(f, response)) && LineageInv(s.lineage, s.log)
    ensures BusyInv(AskStep(s, f, response)) && NoRepeat(AskStep(s, f, response).log)
  {
    var t, z := AskStep(s, f, response), s.finalizers[f];
    assert Unrecorded(s.lineage, z);
    assert Recorded(z.proposal, z.targets[z.at]) !in s.log;
    AskPhase(s, f, response);
    AskMoves(s, f, response);
    hide AskStep, LineageInv;
    MoreLog(s.log, Called(f, z.proposal, z.targets[z.at]));
    hide BusyInv, NoRepeat;
    OneBusy(s, t, f);
  }

  lemma DeletingBusy(s: World, e: Event)
    requires BusyInv(s) && NoRepeat(s.log) && Enabled(s, e) && InDelete(e)
    ensures BusyInv(Step(s, e)) && NoRepeat(Step(s, e).log)
  {
    assert Unrecorded(s.lineage, s.finalizers[e.f]) && !s.finalizers[e.f].phase.Looking?;
    DeletingPhase(s, e);
    MovingMoves(s, e);
    hide Step, Enabled, BusyInv, NoRepeat;
    OneBusy(s, Step(s, e), e.f);
  }

  lemma RecordBusy(s: World, f: nat)
    requires BusyInv(s) && NoRepeat(s.log) && InPhase(s, f, Recording) && Solo(s.finalizers)
    ensures BusyInv(RecordStep(s, f)) && NoRepeat(RecordStep(s, f).log)
  {
    var t, z := RecordStep(s, f), s.finalizers[f];
    if t.log != s.log { MoreLog(s.log, t.log[|s.log|]); }
    hide NoRepeat;
    forall g | g in t.finalizers ensures Unrecorded(t.lineage, t.finalizers[g]) {
      if g != f {
        assert Unrecorded(s.lineage, s.finalizers[g]) && s.finalizers[g].proposal != z.proposal;
      }
    }
  }

  lemma BeginBusy(s: World, f: nat, id: nat, enabled: bool)
    requires BusyInv(s) && NoRepeat(s.log) && id in s.proposals
    ensures BusyInv(FinalizeStep(s, f, id, enabled)) && NoRepeat(FinalizeStep(s, f, id, enabled).log)
  {
    var t := FinalizeStep(s, f, id, enabled);
    OtherLog(s.log, t.log);
    hide NoRepeat, Targets, LogsOther;
  }

  lemma StopBusy(s: World, e: Event)
    requires BusyInv(s) && NoRepeat(s.log) && Enabled(s, e) && (e.Apply? || e.Crash?)
    ensures BusyInv(Step(s, e)) && NoRepeat(Step(s, e).log)
  {
    hide BusyInv, NoRepeat;
    OneBusy(s, Step(s, e), e.f);
  }

  lemma WorkingBusy(s: World, e: Event)
    requires BusyInv(s) && NoRepeat(s.log) && LineageInv(s.lineage, s.log) && Solo(s.finalizers)
    requires Working(e) && !InDelete(e) && !e.Apply? && !e.Crash? && e.f in s.finalizers && Ready(s, e)
    ensures BusyInv(FinalizerStep(s, e)) && NoRepeat(FinalizerStep(s, e).log)
  {
    hide BusyInv, NoRepeat, LookStep, CheckStep, AskStep, VerifyStep, RecordStep, LineageInv, Solo;
    match e
    case Look(f) => LookBusy(s, f);
    case Check(f, answered) => CheckBusy(s, f, answered);
    case Ask(f, response) => AskBusy(s, f, response);
    case Verify(f, answered) => VerifyBusy(s, f, answered);
    case Record(f) => RecordBusy(s, f);
  }

  lemma StepBusy(s: World, e: Event)
    requires BusyInv(s) && NoRepeat(s.log) && FinInv(s) && Solo(s.finalizers) && Enabled(s, e)
    ensures BusyInv(Step(s, e)) && NoRepeat(Step(s, e).log)
  {
    hide BusyInv, NoRepeat, FinalizeStep, FinalizerStep, Solo, LogInv, LineageInv, FinalizersInv;
    if !Finalizing(e) {
      OthersAlone(s, e);
      hide Step;
      SameBusy(s, Step(s, e));
    } else if InDelete(e) {
      DeletingBusy(s, e);
    } else if e.BeginFinalize? {
      BeginBusy(s, e.f, e.id, e.enabled);
    } else if e.Apply? || e.Crash? {
      StopBusy(s, e);
    } else {
      WorkingBusy(s, e);
    }
  }

  lemma SameBusy(s: World, t: World)
    requires BusyInv(s) && SameFinalizers(s, t)
    ensures BusyInv(t)
  {
  }

  lemma {:induction false} SoloRunBusy(s: World, es: seq<Event>, t: World)
    requires SoloRun(s, es, t) && BusyInv(s) && NoRepeat(s.log) && FinInv(s) && s.finalizers.Keys <= s.used
    ensures NoRepeat(t.log)
    decreases |es|
  {
    if es != [] {
      StepBusy(s, es[0]);
      StepFin(s, es[0]);
      UsedStep(s, es[0]);
      hide BusyInv, NoRepeat, FinInv, Step, Enabled, Solo;
      SoloRunBusy(Step(s, es[0]), es[1..], t);
    }
  }

  /** However often a finalizer crashes and is run again, upstream is not asked to delete a target that has its lineage row. */
  lemma FinishedNeverDeletedAgain(now: int, es: seq<Event>, t: World, j: nat, k: nat, id: nat, m: string)
    requires SoloRun(Start(now), es, t) && j < k < |t.log| && t.log[j] == Recorded(id, m)
    ensures !(t.log[k].Called? && t.log[k].proposal == id && t.log[k].memory == m)
  {
    SoloRunBusy(Start(now), es, t);
    hide SoloRun;
    assert !Repeats(t.log[j], t.log[k]);
  }
}
