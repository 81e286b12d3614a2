// Finalizing: what must have happened before upstream is asked to delete, before
// a lineage row is written and before a proposal is applied, over all runs with
// crashes, reruns and other services at work.
module ConsolidationFinalizing {
  import opened Consolidation
  import opened ConsolidationMoves
  import opened Wrappers

  type Log = seq<Entry>
  type Lineage = seq<(nat, string)>

  // ---------------------------------------------------------------- what the log says

  ghost predicate HasBegan(log: Log, f: nat, id: nat) {
    exists k :: 0 <= k < |log| && log[k].Began? && log[k].f == f && log[k].proposal == id
  }

  ghost predicate HasLooked(log: Log, f: nat, id: nat, m: string) {
    exists k :: 0 <= k < |log| && log[k].Looked? && log[k].f == f && log[k].proposal == id && log[k].memory == m
  }

  ghost predicate HasVerified(log: Log, id: nat, m: string) {
    exists k :: 0 <= k < |log| && log[k].Verified? && log[k].proposal == id && log[k].memory == m
  }

  /** Grace and export, then ownership, hash and pin, then upstream source and canonical: all checked by this finalizer. */
  ghost predicate Cleared(log: Log, f: nat, id: nat, m: string) {
    HasBegan(log, f, id) && HasLooked(log, f, id, m) && Matched(f, id, m) in log
  }

  /** What an entry may follow. */
  ghost predicate Justified(log: Log, e: Entry) {
    match e
    case Began(_, _, notBefore, now, _) => notBefore <= now
    case Looked(_, id, _, row, expected) => row.live && TargetFits(row, id, expected)
    case Matched(f, id, m) => HasLooked(log, f, id, m)
    case Called(f, id, m) => Cleared(log, f, id, m)
    case Verified(_, _, _) => true
    case Recorded(id, m) => HasVerified(log, id, m) && e !in log
  }

  ghost predicate LogInv(log: Log) { forall k :: 0 <= k < |log| ==> Justified(log[..k], log[k]) }

  ghost predicate LineageInv(lineage: Lineage, log: Log) {
    && (forall i, j :: 0 <= i < j < |lineage| ==> lineage[i] != lineage[j])
    && (forall id: nat, m: string :: (id, m) in lineage <==> Recorded(id, m) in log)
  }

  /** Between the look upstream and the request to delete. */
  predicate Matching(phase: Phase) { phase.Claiming? || phase.Observing? || phase.Opening? || phase.Asking? }

  /** How far a finalizer has come, and what it has to show for it. */
  ghost predicate FinalizerInv(lineage: Lineage, log: Log, f: nat, z: Finalizer) {
    && HasBegan(log, f, z.proposal) && z.at <= |z.targets|
    && (forall k :: 0 <= k < z.at ==> (z.proposal, z.targets[k]) in lineage)
    && (z.at < |z.targets| ==>
          && (z.phase.Checking? || Matching(z.phase) ==> HasLooked(log, f, z.proposal, z.targets[z.at]))
          && (Matching(z.phase) ==> Matched(f, z.proposal, z.targets[z.at]) in log)
          && (z.phase.Recording? ==> HasVerified(log, z.proposal, z.targets[z.at])))
  }

  ghost predicate FinalizersInv(lineage: Lineage, log: Log, finalizers: map<nat, Finalizer>) {
    forall f :: f in finalizers ==> FinalizerInv(lineage, log, f, finalizers[f])
  }

  ghost predicate FinInv(s: World) {
    LogInv(s.log) && LineageInv(s.lineage, s.log) && FinalizersInv(s.lineage, s.log, s.finalizers)
  }

  lemma Append(log: Log, e: Entry)
    requires LogInv(log) && Justified(log, e)
    ensures LogInv(log + [e])
  {
    hide Justified;
    forall k | 0 <= k < |log| + 1 ensures Justified((log + [e])[..k], (log + [e])[k]) {
      if k < |log| {
        assert (log + [e])[..k] == log[..k];
      } else {
        assert (log + [e])[..k] == log;
      }
    }
  }

  lemma Grows(lineage: Lineage, log: Log, f: nat, z: Finalizer, lineage': Lineage, log': Log)
    requires FinalizerInv(lineage, log, f, z) && lineage <= lineage' && log <= log'
    ensures FinalizerInv(lineage', log', f, z)
  {
    var k :| 0 <= k < |log| && log[k].Began? && log[k].f == f && log[k].proposal == z.proposal;
    assert log'[k] == log[k];
    assert forall x :: x in lineage ==> x in lineage';
    assert forall x :: x in log ==> x in log';
    if z.at < |z.targets| {
      var m := z.targets[z.at];
      if HasLooked(log, f, z.proposal, m) {
        var j :| 0 <= j < |log| && log[j].Looked? && log[j].f == f && log[j].proposal == z.proposal && log[j].memory == m;
        assert log'[j] == log[j];
      }
      if HasVerified(log, z.proposal, m) {
        var j :| 0 <= j < |log| && log[j].Verified? && log[j].proposal == z.proposal && log[j].memory == m;
        assert log'[j] == log[j];
      }
    }
  }

  /** One finalizer moves (or stops), and the log and the lineage only grow. */
  lemma OneMoves(s: World, t: World, f: nat)
    requires FinInv(s) && LogInv(t.log) && LineageInv(t.lineage, t.log) && s.lineage <= t.lineage && s.log <= t.log
    requires t.finalizers.Keys <= s.finalizers.Keys + {f}
    requires forall g :: g in t.finalizers && g != f ==> t.finalizers[g] == s.finalizers[g]
    requires f in t.finalizers ==> FinalizerInv(t.lineage, t.log, f, t.finalizers[f])
    ensures FinInv(t)
  {
    hide LogInv, LineageInv, FinalizerInv;
    forall g | g in t.finalizers ensures FinalizerInv(t.lineage, t.log, g, t.finalizers[g]) {
      if g != f { Grows(s.lineage, s.log, g, s.finalizers[g], t.lineage, t.log); }
    }
  }

  lemma PlainEntry(s: World, e: Entry)
    requires LineageInv(s.lineage, s.log) && !e.Recorded?
    ensures LineageInv(s.lineage, s.log + [e])
  {
  }

  lemma BeginFin(s: World, f: nat, id: nat, enabled: bool)
    requires FinInv(s) && id in s.proposals && f !in s.finalizers
    ensures FinInv(FinalizeStep(s, f, id, enabled))
  {
    var t := FinalizeStep(s, f, id, enabled);
    if t != s {
      var e := t.log[|s.log|];
      Append(s.log, e);
      PlainEntry(s, e);
      assert HasBegan(t.log, f, id);
      hide LogInv, LineageInv, FinalizersInv, Targets;
      OneMoves(s, t, f);
    }
  }

  lemma KnownFinalizer(s: World, f: nat)
    requires FinInv(s) && f in s.finalizers
    ensures FinalizerInv(s.lineage, s.log, f, s.finalizers[f])
  {
  }

  lemma StopFin(s: World, f: nat, t: World)
    requires FinInv(s) && t.lineage == s.lineage && t.log == s.log && t.finalizers == s.finalizers - {f}
    ensures FinInv(t)
  {
    hide LogInv, LineageInv;
    OneMoves(s, t, f);
  }

  /** The next target has its lineage row already. */
  lemma SkipFin(s: World, f: nat)
    requires FinInv(s) && InPhase(s, f, Looking) && (s.finalizers[f].proposal, s.finalizers[f].targets[s.finalizers[f].at]) in s.lineage
    ensures FinInv(LookStep(s, f))
  {
    var t, z := LookStep(s, f), s.finalizers[f];
    KnownFinalizer(s, f);
    assert FinalizerInv(s.lineage, s.log, f, z.(at := z.at + 1));
    hide LogInv, LineageInv, FinalizersInv, FinalizerInv;
    OneMoves(s, t, f);
  }

  /** The row of the next target was deleted already. */
  lemma DeletedFin(s: World, f: nat)
    requires FinInv(s) && InPhase(s, f, Looking) && LookStep(s, f) == Move(s, f, Verifying)
    ensures FinInv(LookStep(s, f))
  {
    var t, z := LookStep(s, f), s.finalizers[f];
    KnownFinalizer(s, f);
    assert FinalizerInv(s.lineage, s.log, f, z.(phase := Verifying));
    hide LogInv, LineageInv, FinalizersInv, FinalizerInv, LookStep;
    OneMoves(s, t, f);
  }

  lemma FitsFin(s: World, f: nat)
    requires FinInv(s) && InPhase(s, f, Looking)
    requires var z := s.finalizers[f]; var m := z.targets[z.at];
      && m in s.rows && s.rows[m].live && m in z.hashes && TargetFits(s.rows[m], z.proposal, z.hashes[m])
    ensures var z := s.finalizers[f]; var m := z.targets[z.at];
      FinInv(Move(s, f, Checking).(log := s.log + [Looked(f, z.proposal, m, s.rows[m], z.hashes[m])]))
  {
    var z := s.finalizers[f];
    var m := z.targets[z.at];
    var e := Looked(f, z.proposal, m, s.rows[m], z.hashes[m]);
    var t := Move(s, f, Checking).(log := s.log + [e]);
    KnownFinalizer(s, f);
    Append(s.log, e);
    PlainEntry(s, e);
    Grows(s.lineage, s.log, f, z, t.lineage, t.log);
    assert t.log[|s.log|] == e;
    assert HasLooked(t.log, f, z.proposal, m);
    hide LogInv, LineageInv, FinalizersInv, HasLooked, HasBegan, HasVerified, TargetFits;
    OneMoves(s, t, f);
  }

  lemma LookFin(s: World, f: nat)
    requires FinInv(s) && InPhase(s, f, Looking)
    ensures FinInv(LookStep(s, f))
  {
    var t, z := LookStep(s, f), s.finalizers[f];
    var m := z.targets[z.at];
    hide FinInv, TargetFits, RetiredHere;
    if (z.proposal, m) in s.lineage {
      SkipFin(s, f);
    } else if t == FailProposal(s, f, z.proposal) || t == Stop(s, f) {
      hide LookStep;
      StopFin(s, f, t);
    } else if s.rows[m].live {
      hide FailProposal, Stop, Move;
      FitsFin(s, f);
    } else {
      DeletedFin(s, f);
    }
  }

  lemma CheckFin(s: World, f: nat, answered: bool)
    requires FinInv(s) && InPhase(s, f, Checking)
    ensures FinInv(CheckStep(s, f, answered))
  {
    var t, z := CheckStep(s, f, answered), s.finalizers[f];
    KnownFinalizer(s, f);
    hide UpstreamMatches, CanonicalMatches;
    if f !in t.finalizers {
      StopFin(s, f, t);
    } else {
      var e := Matched(f, z.proposal, z.targets[z.at]);
      Append(s.log, e);
      PlainEntry(s, e);
      Grows(s.lineage, s.log, f, z, t.lineage, t.log);
      hide LogInv, LineageInv, FinalizersInv;
      OneMoves(s, t, f);
    }
  }

  /** A step to a phase that takes no more than the one before, or to an end. */
  lemma QuietFin(s: World, t: World, f: nat)
    requires FinInv(s) && OnlyPhase(s, t, f) && OneMoved(s.finalizers, t.finalizers, f)
    ensures FinInv(t)
  {
    KnownFinalizer(s, f);
    hide LogInv, LineageInv, FinalizersInv, HasLooked, HasVerified, HasBegan;
    OneMoves(s, t, f);
  }

  predicate InDelete(e: Event) { e.Claim? || e.Observe? || e.Open? || e.Commit? }

  lemma StopIs(s: World, f: nat)
    ensures var t := Stop(s, f); f !in t.finalizers && t.log == s.log && t.lineage == s.lineage
  {
  }

  lemma MoveIs(s: World, f: nat, phase: Phase)
    requires f in s.finalizers
    ensures var t := Move(s, f, phase);
      && f in t.finalizers && t.finalizers[f] == s.finalizers[f].(phase := phase)
      && t.log == s.log && t.lineage == s.lineage
  {
  }

  /** Nothing is logged or recorded, and the finalizer stops or goes on to one of these phases. */
  ghost predicate OnlyPhase(s: World, t: World, f: nat) {
    && f in s.finalizers && t.log == s.log && t.lineage == s.lineage
    && (f in t.finalizers ==>
          && t.finalizers[f].at == s.finalizers[f].at && (Matching(t.finalizers[f].phase) ==> Matching(s.finalizers[f].phase))
          && !t.finalizers[f].phase.Checking? && !t.finalizers[f].phase.Recording?)
  }

  lemma ClaimPhase(s: World, f: nat)
    requires InPhase(s, f, Claiming)
    ensures OnlyPhase(s, ClaimStep(s, f), f)
  {
    var app := AppOf(s, f);
    StopIs(s, f);
    MoveIs(s, f, Opening);
    if app in s.intents {
      var x := s.intents[app];
      MoveIs(s, f, Observing(x.(state := Running(s.now + LEASE), attempts := x.attempts + 1)));
    }
    hide Stop, Move;
  }

  lemma ObservePhase(s: World, f: nat, answered: bool)
    requires Enabled(s, Observe(f, answered))
    ensures OnlyPhase(s, ObserveStep(s, f, answered), f)
  {
    StopIs(s, f);
    MoveIs(s, f, Opening);
    if AppOf(s, f) in s.intents {
      var t := s.(rows := Bury(s.rows, Vanished(s.intents[AppOf(s, f)].task, s.upstream)));
      StopIs(t, f);
      MoveIs(t, f, Opening);
    }
    hide Stop, Move, Bury, StillClaimed, Settles, Remaining, Vanished, MarkUnresolved, Enabled;
  }

  lemma OpenPhase(s: World, f: nat)
    requires InPhase(s, f, Opening)
    ensures OnlyPhase(s, OpenStep(s, f), f)
  {
    StopIs(s, f);
    if LiveIn(s.rows, AppOf(s, f), TargetOf(s, f)) { MoveIs(s, f, Asking(s.rows[TargetOf(s, f)])); }
    hide Stop, Move;
  }

  lemma CommitPhase(s: World, f: nat)
    requires Enabled(s, Commit(f))
    ensures OnlyPhase(s, CommitStep(s, f), f)
  {
    StopIs(s, f);
    MoveIs(s, f, Verifying);
    hide Stop, Move, Bury, Mine, SameRow, MarkUnresolved;
  }

  lemma DeletingPhase(s: World, e: Event)
    requires Enabled(s, e) && InDelete(e)
    ensures OnlyPhase(s, Step(s, e), e.f)
  {
    hide ClaimStep, ObserveStep, OpenStep, CommitStep, OnlyPhase;
    match e
    case Claim(f) => ClaimPhase(s, f);
    case Observe(f, answered) => ObservePhase(s, f, answered);
    case Open(f) => OpenPhase(s, f);
    case Commit(f) => CommitPhase(s, f);
  }

  lemma DeletingFin(s: World, e: Event)
    requires FinInv(s) && Enabled(s, e) && InDelete(e)
    ensures FinInv(Step(s, e))
  {
    DeletingPhase(s, e);
    MovingMoves(s, e);
    hide Step, FinInv, OnlyPhase;
    QuietFin(s, Step(s, e), e.f);
  }

  lemma AskPhase(s: World, f: nat, response: Response)
    requires Enabled(s, Ask(f, response))
    ensures var t, z := AskStep(s, f, response), s.finalizers[f];
      && t.log == s.log + [Called(f, z.proposal, z.targets[z.at])] && t.lineage == s.lineage
      && (f in t.finalizers ==> t.finalizers[f].at == z.at && (t.finalizers[f].phase.Committing? || t.finalizers[f].phase.Missing?))
  {
    var snapshot := s.finalizers[f].phase.snapshot;
    var t := s.(log := s.log + [Called(f, s.finalizers[f].proposal, TargetOf(s, f))]);
    StopIs(t, f);
    MoveIs(t, f, Committing(snapshot));
    MoveIs(t, f, Missing(snapshot));
    hide Stop, Move, Mine, MarkUnresolved;
  }

  /** A justified entry, not of a lineage row, and what it leaves of the invariant. */
  lemma OneLogged(s: World, f: nat, e: Entry)
    requires FinInv(s) && f in s.finalizers && Justified(s.log, e) && !e.Recorded?
    ensures LogInv(s.log + [e]) && LineageInv(s.lineage, s.log + [e])
    ensures FinalizerInv(s.lineage, s.log + [e], f, s.finalizers[f])
  {
    KnownFinalizer(s, f);
    Append(s.log, e);
    PlainEntry(s, e);
    Grows(s.lineage, s.log, f, s.finalizers[f], s.lineage, s.log + [e]);
  }

  lemma AskCleared(s: World, f: nat)
    requires FinInv(s) && Busy(s, f) && s.finalizers[f].phase.Asking?
    ensures Justified(s.log, Called(f, s.finalizers[f].proposal, TargetOf(s, f)))
  {
    KnownFinalizer(s, f);
  }

  lemma AskFin(s: World, f: nat, response: Response)
    requires FinInv(s) && Enabled(s, Ask(f, response))
    ensures FinInv(AskStep(s, f, response))
  {
    AskCleared(s, f);
    AskPhase(s, f, response);
    AskMoves(s, f, response);
    OneLogged(s, f, Called(f, s.finalizers[f].proposal, TargetOf(s, f)));
    hide AskStep, FinInv, LogInv, LineageInv, Justified, HasLooked, HasVerified, HasBegan;
    OneMoves(s, AskStep(s, f, response), f);
  }

  lemma VerifyFin(s: World, f: nat, answered: bool)
    requires FinInv(s) && InPhase(s, f, Verifying)
    ensures FinInv(VerifyStep(s, f, answered))
  {
    var t, z := VerifyStep(s, f, answered), s.finalizers[f];
    KnownFinalizer(s, f);
    if t == FailProposal(s, f, z.proposal) || t == Stop(s, f) {
      hide VerifyStep, FinInv;
      StopFin(s, f, t);
    } else {
      var e := Verified(f, z.proposal, z.targets[z.at]);
      Append(s.log, e);
      PlainEntry(s, e);
      assert t.log[|s.log|] == e;
      assert HasVerified(t.log, z.proposal, z.targets[z.at]);
      Grows(s.lineage, s.log, f, z, t.lineage, t.log);
      hide LogInv, LineageInv, FinalizersInv;
      OneMoves(s, t, f);
    }
  }

  lemma RecordLineage(lineage: Lineage, log: Log, id: nat, m: string)
    requires LogInv(log) && LineageInv(lineage, log) && HasVerified(log, id, m) && (id, m) !in lineage
    ensures LogInv(log + [Recorded(id, m)]) && LineageInv(lineage + [(id, m)], log + [Recorded(id, m)])
  {
    Append(log, Recorded(id, m));
    hide LogInv, HasVerified;
  }

  lemma RecordedOne(lineage: Lineage, log: Log, f: nat, z: Finalizer)
    requires FinalizerInv(lineage, log, f, z) && z.at < |z.targets| && (z.proposal, z.targets[z.at]) in lineage
    ensures FinalizerInv(lineage, log, f, z.(at := z.at + 1, phase := Looking))
  {
    hide HasVerified, HasLooked, HasBegan;
  }

  lemma RecordIs(s: World, f: nat)
    requires InPhase(s, f, Recording)
    ensures var t, z := RecordStep(s, f), s.finalizers[f]; var e := (z.proposal, z.targets[z.at]);
      && t.finalizers == s.finalizers[f := z.(at := z.at + 1, phase := Looking)]
      && if e in s.lineage then t.lineage == s.lineage && t.log == s.log
         else t.lineage == s.lineage + [e] && t.log == s.log + [Recorded(e.0, e.1)]
  {
  }

  lemma RecordFin(s: World, f: nat)
    requires FinInv(s) && InPhase(s, f, Recording)
    ensures FinInv(RecordStep(s, f))
  {
    var t, z := RecordStep(s, f), s.finalizers[f];
    var m := z.targets[z.at];
    KnownFinalizer(s, f);
    RecordIs(s, f);
    hide RecordStep;
    assert HasVerified(s.log, z.proposal, m);
    if (z.proposal, m) !in s.lineage { RecordLineage(s.lineage, s.log, z.proposal, m); }
    Grows(s.lineage, s.log, f, z, t.lineage, t.log);
    assert (z.proposal, m) in t.lineage;
    hide LogInv, LineageInv, FinalizersInv, FinalizerInv, HasVerified;
    RecordedOne(t.lineage, t.log, f, z);
    OneMoves(s, t, f);
  }

  predicate Finalizing(e: Event) { e.BeginFinalize? || Working(e) }

  /** The rest of the service leaves finalizers, their log and the lineage alone. */
  lemma OthersAlone(s: World, e: Event)
    requires Enabled(s, e) && !Finalizing(e)
    ensures SameFinalizers(s, Step(s, e))
  {
    if e.BeginShadow? || e.Mismatch? || e.EndShadow? {
      ShadowingAlone(s, e);
    } else {
      hide SourcesFit, RollbackRows, MayApprove, Approve;
    }
  }

  lemma BeginAlone(s: World, attempt: nat, id: nat, lease: nat, ready: bool)
    requires id in s.proposals
    ensures SameFinalizers(s, ShadowStep(s, attempt, id, lease, ready))
  {
    hide SourcesFit, LeaseLive;
  }

  lemma EndAlone(s: World, attempt: nat, job: Export, upstreamMatches: bool, grace: nat)
    requires Enabled(s, EndShadow(attempt, job, upstreamMatches, grace))
    ensures SameFinalizers(s, ShadowedStep(s, attempt, job, upstreamMatches, grace))
  {
    hide SourcesFit, Retire, Targets, ClearAttempt;
  }

  lemma ShadowingAlone(s: World, e: Event)
    requires Enabled(s, e) && (e.BeginShadow? || e.Mismatch? || e.EndShadow?)
    ensures SameFinalizers(s, Step(s, e))
  {
    hide ShadowStep, ShadowedStep, SameFinalizers;
    match e
    case BeginShadow(attempt, id, lease, ready) => BeginAlone(s, attempt, id, lease, ready);
    case EndShadow(attempt, job, upstreamMatches, grace) => EndAlone(s, attempt, job, upstreamMatches, grace);
    case Mismatch(attempt) => assert SameFinalizers(s, MismatchStep(s, attempt)) by { MismatchAlone(s, attempt); }
  }

  lemma MismatchAlone(s: World, attempt: nat)
    requires Enabled(s, Mismatch(attempt))
    ensures SameFinalizers(s, MismatchStep(s, attempt))
  {
  }

  predicate SameFinalizers(s: World, t: World) { t.finalizers == s.finalizers && t.log == s.log && t.lineage == s.lineage }

  lemma ApplyFin(s: World, f: nat)
    requires FinInv(s) && Enabled(s, Apply(f))
    ensures FinInv(ApplyStep(s, f))
  {
    hide FinInv;
    StopFin(s, f, ApplyStep(s, f));
  }

  lemma CrashFin(s: World, f: nat)
    requires FinInv(s)
    ensures FinInv(Stop(s, f))
  {
    hide FinInv;
    StopFin(s, f, Stop(s, f));
  }

  lemma WorkingFin(s: World, e: Event)
    requires FinInv(s) && Working(e) && e.f in s.finalizers && Ready(s, e)
    ensures FinInv(FinalizerStep(s, e))
  {
    hide FinInv, LookStep, CheckStep, ClaimStep, ObserveStep, OpenStep, AskStep, CommitStep, VerifyStep, RecordStep, ApplyStep, Stop;
    match e
    case Look(f) => LookFin(s, f);
    case Check(f, answered) => CheckFin(s, f, answered);
    case Ask(f, response) => AskFin(s, f, response);
    case Verify(f, answered) => VerifyFin(s, f, answered);
    case Record(f) => RecordFin(s, f);
    case Apply(f) => ApplyFin(s, f);
    case Crash(f) => CrashFin(s, f);
    case _ => DeletingFin(s, e);
  }

  lemma StepFin(s: World, e: Event)
    requires FinInv(s) && Enabled(s, e) && s.finalizers.Keys <= s.used
    ensures FinInv(Step(s, e))
  {
    if !Finalizing(e) {
      OthersAlone(s, e);
      hide Step, LogInv, LineageInv, FinalizersInv;
    } else {
      hide FinInv, FinalizeStep, FinalizerStep;
      if e.BeginFinalize? { BeginFin(s, e.f, e.id, e.enabled); } else { WorkingFin(s, e); }
    }
  }

  lemma {:induction false} RunFin(s: World, es: seq<Event>, t: World)
    requires FinInv(s) && s.finalizers.Keys <= s.used && Run(s, es, t)
    ensures FinInv(t) && t.finalizers.Keys <= t.used
    decreases |es|
  {
    if es != [] {
      StepFin(s, es[0]);
      UsedStep(s, es[0]);
      hide FinInv, Step, Enabled;
      RunFin(Step(s, es[0]), es[1..], t);
    }
  }

  /** A finalizer's step starts no finalizer, and leaves the targets of all alone. */
  ghost predicate Kept(s: World, t: World) {
    && t.used == s.used && t.finalizers.Keys <= s.finalizers.Keys
    && forall f :: f in t.finalizers ==>
      t.finalizers[f].targets == s.finalizers[f].targets && t.finalizers[f].proposal == s.finalizers[f].proposal
  }

  lemma FinalizerKept(s: World, e: Event)
    requires Enabled(s, e) && Working(e)
    ensures Kept(s, Step(s, e))
  {
    assert e.f in s.finalizers;
    hide Step, Enabled, Moved, Decided, Kept;
    if Deciding(e) {
      DecidingDecides(s, e);
      DecidedKept(s, Step(s, e), e.f, s.finalizers[e.f].proposal);
    } else {
      MovingMoves(s, e);
      MovedKept(s, Step(s, e), e.f);
    }
  }

  lemma MovedKept(s: World, t: World, f: nat)
    requires Moved(s, t, f)
    ensures Kept(s, t)
  {
  }

  lemma DecidedKept(s: World, t: World, f: nat, id: nat)
    requires Decided(s, t, f, id)
    ensures Kept(s, t)
  {
  }

  /** Starting a finalizer, or not. */
  lemma BeginKept(s: World, f: nat, id: nat, enabled: bool)
    requires Enabled(s, BeginFinalize(f, id, enabled))
    ensures var t := Step(s, BeginFinalize(f, id, enabled));
      t == s || (t.used == s.used + {f} && f in t.finalizers && t.finalizers == s.finalizers[f := t.finalizers[f]])
  {
    hide Finalizable, Targets;
  }

  lemma UsedStep(s: World, e: Event)
    requires Enabled(s, e) && s.finalizers.Keys <= s.used
    ensures Step(s, e).finalizers.Keys <= Step(s, e).used
  {
    hide Step, Enabled;
    if !Finalizing(e) {
      OthersAlone(s, e);
      MoreUsed(s, e);
    } else if e.BeginFinalize? {
      BeginKept(s, e.f, e.id, e.enabled);
    } else {
      FinalizerKept(s, e);
    }
  }

  lemma MoreUsed(s: World, e: Event)
    requires Enabled(s, e) && !Finalizing(e)
    ensures s.used <= Step(s, e).used
  {
    if e.EndShadow? || e.Mismatch? {
      hide SourcesFit, Retire, LeaseLive, Targets, ClearAttempt;
    } else {
      hide SourcesFit, RollbackRows, MayApprove, Approve, LeaseLive;
    }
  }

  // ---------------------------------------------------------------- what every run guarantees

  /** Upstream is asked to delete only what this finalizer has cleared: grace over, exported, still owned, unchanged, matched. */
  lemma DeletesAreCleared(now: int, es: seq<Event>, t: World, k: nat)
    requires Run(Start(now), es, t) && k < |t.log| && t.log[k].Called?
    ensures Cleared(t.log[..k], t.log[k].f, t.log[k].proposal, t.log[k].memory)
  {
    RunFin(Start(now), es, t);
    assert Justified(t.log[..k], t.log[k]);
  }

  /** A look that let a target through saw it live, retired by this proposal, unpinned and with the expected hash. */
  lemma LooksAreSound(now: int, es: seq<Event>, t: World, k: nat)
    requires Run(Start(now), es, t) && k < |t.log|
    ensures t.log[k].Looked? ==> t.log[k].row.live && TargetFits(t.log[k].row, t.log[k].proposal, t.log[k].expected)
    ensures t.log[k].Began? ==> t.log[k].notBefore <= t.log[k].now
  {
    RunFin(Start(now), es, t);
    assert Justified(t.log[..k], t.log[k]);
  }

  /** A source has at most one lineage row per proposal, and only after upstream answered that it does not exist. */
  lemma LineageIsSound(now: int, es: seq<Event>, t: World, i: nat, j: nat)
    requires Run(Start(now), es, t) && i < |t.lineage| && j < |t.lineage|
    ensures t.lineage[i] == t.lineage[j] ==> i == j
    ensures HasVerified(t.log, t.lineage[i].0, t.lineage[i].1)
  {
    RunFin(Start(now), es, t);
    var e := Recorded(t.lineage[i].0, t.lineage[i].1);
    assert t.lineage[i] in t.lineage && e in t.log;
    var k :| 0 <= k < |t.log| && t.log[k] == e;
    assert Justified(t.log[..k], t.log[k]);
    var n :| 0 <= n < k && t.log[..k][n].Verified? && t.log[..k][n].proposal == e.proposal && t.log[..k][n].memory == e.memory;
    assert t.log[n].Verified?;
  }

  /** A finalizer keeps the proposal and the list of targets it started with. */
  ghost predicate SameTargets(s: World, t: World, f: nat) {
    f in s.finalizers && f in t.finalizers ==>
      t.finalizers[f].targets == s.finalizers[f].targets && t.finalizers[f].proposal == s.finalizers[f].proposal
  }

  lemma TargetsKept(s: World, e: Event, f: nat)
    requires Enabled(s, e) && s.finalizers.Keys <= s.used
    ensures SameTargets(s, Step(s, e), f)
  {
    if e.BeginFinalize? { assert e.f !in s.used; }
    hide Step, Enabled;
    if !Finalizing(e) {
      OthersAlone(s, e);
    } else if e.BeginFinalize? {
      BeginKept(s, e.f, e.id, e.enabled);
    } else {
      FinalizerKept(s, e);
    }
  }

  /** A finalizer that is gone stays gone. */
  lemma GoneStays(s: World, e: Event, f: nat)
    requires Enabled(s, e) && f in s.used && f !in s.finalizers
    ensures f !in Step(s, e).finalizers && f in Step(s, e).used
  {
    if e.BeginFinalize? { assert e.f !in s.used; }
    hide Step, Enabled;
    if !Finalizing(e) {
      OthersAlone(s, e);
      MoreUsed(s, e);
    } else if e.BeginFinalize? {
      BeginKept(s, e.f, e.id, e.enabled);
    } else {
      FinalizerKept(s, e);
    }
  }

  lemma {:induction false} TargetsKeptOverRun(s: World, es: seq<Event>, t: World, f: nat)
    requires Run(s, es, t) && s.finalizers.Keys <= s.used && f in s.used && f in t.finalizers
    ensures f in s.finalizers && t.finalizers[f].targets == s.finalizers[f].targets
    ensures t.finalizers[f].proposal == s.finalizers[f].proposal
    decreases |es|
  {
    if es != [] {
      UsedStep(s, es[0]);
      if f !in s.finalizers { GoneStays(s, es[0], f); } else { FinalizerUsed(s, es[0], f); }
      hide Step, Enabled;
      TargetsKeptOverRun(Step(s, es[0]), es[1..], t, f);
      if f in s.finalizers { TargetsKept(s, es[0], f); }
    }
  }

  lemma FinalizerUsed(s: World, e: Event, f: nat)
    requires Enabled(s, e) && f in s.used
    ensures f in Step(s, e).used
  {
    hide Step, Enabled;
    if !Finalizing(e) {
      MoreUsed(s, e);
    } else if e.BeginFinalize? {
      BeginKept(s, e.f, e.id, e.enabled);
    } else {
      FinalizerKept(s, e);
    }
  }

  /** When a finalizer applies its proposal, every source but the canonical has its lineage row and was seen to be gone upstream. */
  lemma AppliedMeansFinished(now: int, es: seq<Event>, s: World, f: nat, id: nat, fs: seq<Event>, t: World, m: string)
    requires Run(Start(now), es, s) && Enabled(s, BeginFinalize(f, id, true)) && Finalizable(s.proposals[id], s.now)
    requires Run(Step(s, BeginFinalize(f, id, true)), fs, t) && Enabled(t, Apply(f))
    requires m in s.proposals[id].sources && s.proposals[id].canonical != Some(m)
    ensures t.finalizers[f].proposal == id && (id, m) in t.lineage && HasVerified(t.log, id, m)
  {
    RunFin(Start(now), es, s);
    AppliedFrom(s, f, id, fs, t, m);
  }

  lemma AppliedFrom(s: World, f: nat, id: nat, fs: seq<Event>, t: World, m: string)
    requires FinInv(s) && s.finalizers.Keys <= s.used
    requires Enabled(s, BeginFinalize(f, id, true)) && Finalizable(s.proposals[id], s.now)
    requires Run(Step(s, BeginFinalize(f, id, true)), fs, t) && Enabled(t, Apply(f))
    requires m in s.proposals[id].sources && s.proposals[id].canonical != Some(m)
    ensures t.finalizers[f].proposal == id && (id, m) in t.lineage && HasVerified(t.log, id, m)
  {
    var begun := Step(s, BeginFinalize(f, id, true));
    BegunTargets(s, f, id);
    assert m in Targets(s.proposals[id]) && f in t.finalizers && t.finalizers[f].at == |t.finalizers[f].targets|;
    hide Step, Enabled, Run, FinInv, Targets, HasVerified;
    StepFin(s, BeginFinalize(f, id, true));
    UsedStep(s, BeginFinalize(f, id, true));
    RunFin(begun, fs, t);
    TargetsKeptOverRun(begun, fs, t, f);
    RecordedIsVerified(t, f, m);
  }

  lemma BegunTargets(s: World, f: nat, id: nat)
    requires Enabled(s, BeginFinalize(f, id, true)) && Finalizable(s.proposals[id], s.now)
    ensures var t := Step(s, BeginFinalize(f, id, true));
      f in t.used && f in t.finalizers && t.finalizers[f].targets == Targets(s.proposals[id]) && t.finalizers[f].proposal == id
  {
  }

  lemma RecordedIsVerified(t: World, f: nat, m: string)
    requires FinInv(t) && f in t.finalizers && t.finalizers[f].at == |t.finalizers[f].targets| && m in t.finalizers[f].targets
    ensures (t.finalizers[f].proposal, m) in t.lineage && HasVerified(t.log, t.finalizers[f].proposal, m)
  {
    KnownFinalizer(t, f);
    var e := Recorded(t.finalizers[f].proposal, m);
    assert (e.proposal, m) in t.lineage && e in t.log;
    var k :| 0 <= k < |t.log| && t.log[k] == e;
    assert Justified(t.log[..k], t.log[k]);
    var n :| 0 <= n < k && t.log[..k][n].Verified? && t.log[..k][n].proposal == e.proposal && t.log[..k][n].memory == e.memory;
    assert t.log[n].Verified?;
  }
}
