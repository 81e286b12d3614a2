// What each step of a finalizer does to the tables, to upstream and to itself.
module ConsolidationFinalizerEffects {
  import opened Consolidation
  import opened Wrappers

  const SECONDS := 300
  const ATTEMPTS := 3

  /** The finalizer goes on with its target in another phase. */
  ghost predicate Goes(s: World, t: World, f: nat, phase: Phase) {
    f in s.finalizers && t.finalizers == s.finalizers[f := s.finalizers[f].(phase := phase)]
  }

  /** The call raises, and the finalizer is over. */
  ghost predicate Ends(s: World, t: World, f: nat) { t.finalizers == s.finalizers - {f} }

  /** The row is live, in the application, retired by the proposal, unpinned and unchanged. */
  predicate Clear(row: Row, app: string, id: nat, hash: string) {
    row.app == app && row.live && row.state != RowState.Active && row.shadowedBy == Some(id) && !row.pinned && row.hash == hash
  }

  lemma StopDoes(s: World, f: nat)
    ensures Stop(s, f) == s.(finalizers := s.finalizers - {f})
  {
  }

  lemma MoveDoes(s: World, f: nat, phase: Phase)
    requires f in s.finalizers
    ensures Move(s, f, phase) == s.(finalizers := s.finalizers[f := s.finalizers[f].(phase := phase)])
  {
  }

  lemma FailDoes(s: World, f: nat, id: nat)
    requires id in s.proposals
    ensures FailProposal(s, f, id) == s.(finalizers := s.finalizers - {f}, proposals := s.proposals[id := s.proposals[id].(status := Failed)])
  {
  }

  lemma BuryDoes(rows: Rows, ms: set<string>)
    ensures Dead(rows, Bury(rows, ms), ms)
  {
  }

  lemma OwnIs(s: World, app: string, f: nat, m: string)
    ensures Mine(s, app, f, m) <==> Own(s, app, f, m)
    ensures MarkUnknown(s, app, f, m) ==
      if Own(s, app, f, m) then s.(intents := s.intents[app := s.intents[app].(state := Unresolved)]) else s
  {
  }

  lemma StepIs(s: World, e: Event)
    requires Enabled(s, e) && Working(e)
    ensures e.f in s.finalizers && Ready(s, e) && Step(s, e) == FinalizerStep(s, e)
  {
    hide FinalizerStep, Ready;
  }

  /**
   * A look: a target with a lineage row is done, a clear one is checked, one that is only gone here is verified; for any
   * other the call raises, and the proposal fails unless only its hash is missing.
   */
  lemma Looks(s: World, f: nat)
    requires Enabled(s, Look(f))
    ensures var t, z, m := Step(s, Look(f)), s.finalizers[f], TargetOf(s, f); var p := s.proposals[z.proposal];
      && t == s.(finalizers := t.finalizers, proposals := t.proposals, log := t.log)
      && var here := m in s.rows && s.rows[m].app == p.app;
        if (z.proposal, m) in s.lineage then
          t.finalizers == s.finalizers[f := z.(at := z.at + 1)] && t.proposals == s.proposals && t.log == s.log
        else if here && m in z.hashes && Clear(s.rows[m], p.app, z.proposal, z.hashes[m]) then
          && Goes(s, t, f, Checking) && t.proposals == s.proposals
          && t.log == s.log + [Looked(f, z.proposal, m, s.rows[m], z.hashes[m])]
        else if here && !s.rows[m].live then Goes(s, t, f, Verifying) && t.proposals == s.proposals && t.log == s.log
        else
          && Ends(s, t, f) && t.log == s.log
          && var known := here && s.rows[m].state != RowState.Active && s.rows[m].shadowedBy == Some(z.proposal) && m !in z.hashes;
            t.proposals == if known then s.proposals else s.proposals[z.proposal := p.(status := Failed)]
  {
    StepIs(s, Look(f));
    hide Step, Enabled, Stop, Move, FailProposal;
    StopDoes(s, f);
    FailDoes(s, f, s.finalizers[f].proposal);
    MoveDoes(s, f, Checking);
    MoveDoes(s, f, Verifying);
  }

  /** A memory as it was approved: upstream has it, in the application, unpinned and with this content. */
  predicate AsApproved(s: World, app: string, m: string, hash: string) {
    m in s.upstream && s.upstream[m].app == app && !s.upstream[m].pinned && s.upstream[m].hash == hash
  }

  /** A check: it goes on exactly if upstream has the target, and the canonical if there is one, as approved. */
  lemma Checks(s: World, f: nat, answered: bool)
    requires Enabled(s, Check(f, answered))
    ensures var t, z, m := Step(s, Check(f, answered)), s.finalizers[f], TargetOf(s, f); var p := s.proposals[z.proposal];
      && t == s.(finalizers := t.finalizers, log := t.log)
      && var canonical := p.canonical.Some? ==>
           if p.canonical.value in z.hashes then AsApproved(s, p.app, p.canonical.value, z.hashes[p.canonical.value])
           else p.canonicalHash.Some? && AsApproved(s, p.app, p.canonical.value, p.canonicalHash.value);
        if answered && m in z.hashes && AsApproved(s, p.app, m, z.hashes[m]) && canonical then
          Goes(s, t, f, Claiming) && t.log == s.log + [Matched(f, z.proposal, m)]
        else Ends(s, t, f) && t.log == s.log
  {
    StepIs(s, Check(f, answered));
    hide Step, Enabled;
  }

  /** What a claim does to the open intent of the application. */
  ghost predicate Claimed(s: World, t: World, f: nat, app: string)
    requires app in s.intents
  {
    var x := s.intents[app];
    if x.state == Spent || (x.state.Running? && s.now < x.state.lease) then Ends(s, t, f) && t.intents == s.intents
    else if x.attempts >= ATTEMPTS then Ends(s, t, f) && t.intents == s.intents[app := x.(state := Spent)]
    else
      var claimed := x.(state := Running(s.now + SECONDS), attempts := x.attempts + 1);
      Goes(s, t, f, Observing(claimed)) && t.intents == s.intents[app := claimed]
  }

  lemma ClaimedIs(s: World, f: nat)
    requires Busy(s, f) && AppOf(s, f) in s.intents
    ensures var t := ClaimStep(s, f); t == s.(finalizers := t.finalizers, intents := t.intents) && Claimed(s, t, f, AppOf(s, f))
  {
    hide Stop, Move;
    var x := s.intents[AppOf(s, f)];
    StopDoes(s, f);
    MoveDoes(s, f, Observing(x.(state := Running(s.now + LEASE), attempts := x.attempts + 1)));
  }

  /**
   * A claim of the open intent of the application: one that is spent or at work stops the finalizer, one after three attempts
   * is spent from now on, and any other is claimed for five minutes.  Without one the finalizer goes on.
   */
  lemma ClaimsIntent(s: World, f: nat)
    requires Enabled(s, Claim(f))
    ensures var t, app := Step(s, Claim(f)), s.proposals[s.finalizers[f].proposal].app;
      && t == s.(finalizers := t.finalizers, intents := t.intents)
      && if app !in s.intents then Goes(s, t, f, Opening) && t.intents == s.intents else Claimed(s, t, f, app)
  {
    StepIs(s, Claim(f));
    hide Step, Enabled, Claimed;
    if AppOf(s, f) in s.intents {
      ClaimedIs(s, f);
      hide ClaimStep;
    }
  }

  /** The intent is open: to be tried again, or no more after three attempts. */
  function LeftOpen(x: Intent): IntentState { if x.attempts >= ATTEMPTS then Spent else Unresolved }

  /** Exactly the rows of these memories are dead; nothing else about any row changes. */
  ghost predicate Dead(rows: Rows, after: Rows, ms: set<string>) {
    && after.Keys == rows.Keys
    && forall m :: m in rows ==> after[m] == if m in ms then rows[m].(live := false) else rows[m]
  }

  /** Upstream has answered about a claimed intent: what it leaves of the rows and of the intent. */
  ghost predicate Recovered(s: World, t: World, f: nat, app: string)
    requires app in s.intents
  {
    var x := s.intents[app];
    if x.task.Rewriting? then
      && t.rows == s.rows
      && if x.task.settles then Goes(s, t, f, Opening) && t.intents == s.intents - {app}
         else Ends(s, t, f) && t.intents == s.intents[app := x.(state := LeftOpen(x))]
    else
      var left := set m | m in x.task.memories && m in s.upstream;
      && Dead(s.rows, t.rows, x.task.memories - left)
      && if left == {} then Goes(s, t, f, Opening) && t.intents == s.intents - {app}
         else Ends(s, t, f) && t.intents == s.intents[app := x.(state := LeftOpen(x), task := Deleting(left))]
  }

  /** The intent is still as it was claimed. */
  predicate AsClaimed(x: Intent, claimed: Intent) {
    x.state.Running? && x.task == claimed.task && x.attempts == claimed.attempts && x.maker == claimed.maker
  }

  /** The finalizer observes an intent that is still as it claimed it. */
  predicate Recovering(s: World, f: nat) {
    Busy(s, f) && s.finalizers[f].phase.Observing? && AppOf(s, f) in s.intents
    && AsClaimed(s.intents[AppOf(s, f)], s.finalizers[f].phase.claimed)
  }

  lemma RewriteRecovered(s: World, f: nat)
    requires Recovering(s, f) && s.intents[AppOf(s, f)].task.Rewriting?
    ensures var t := ObserveStep(s, f, true);
      t == s.(finalizers := t.finalizers, intents := t.intents, rows := t.rows) && Recovered(s, t, f, AppOf(s, f))
  {
    assert Bury(s.rows, {}) == s.rows;
  }

  lemma DeleteRecovered(s: World, f: nat)
    requires Recovering(s, f) && s.intents[AppOf(s, f)].task.Deleting?
    ensures var t := ObserveStep(s, f, true);
      t == s.(finalizers := t.finalizers, intents := t.intents, rows := t.rows) && Recovered(s, t, f, AppOf(s, f))
  {
    var memories := s.intents[AppOf(s, f)].task.memories;
    var left := set m | m in memories && m in s.upstream;
    assert left == memories * s.upstream.Keys && memories - left == memories - s.upstream.Keys;
  }

  lemma ClaimedIff(s: World, app: string, claimed: Intent)
    requires app in s.intents
    ensures StillClaimed(s, app, claimed) <==> AsClaimed(s.intents[app], claimed)
  {
  }

  /**
   * Recovery of the claimed intent: if upstream does not answer it stays open; otherwise the rows of the memories that it
   * deletes and that upstream does not have are dead, and it is closed exactly if nothing of it is left to do.
   */
  lemma Observes(s: World, f: nat, answered: bool)
    requires Enabled(s, Observe(f, answered))
    ensures var t, z := Step(s, Observe(f, answered)), s.finalizers[f]; var app, claimed := s.proposals[z.proposal].app, z.phase.claimed;
      && t == s.(finalizers := t.finalizers, intents := t.intents, rows := t.rows)
      && if app !in s.intents then Goes(s, t, f, Opening) && t.intents == s.intents && t.rows == s.rows
         else if !AsClaimed(s.intents[app], claimed) then Ends(s, t, f) && t.intents == s.intents && t.rows == s.rows
         else if !answered then
           Ends(s, t, f) && t.intents == s.intents[app := s.intents[app].(state := LeftOpen(s.intents[app]))] && t.rows == s.rows
         else Recovered(s, t, f, app)
  {
    StepIs(s, Observe(f, answered));
    hide Recovered, AsClaimed, StillClaimed, Step;
    if AppOf(s, f) in s.intents {
      ClaimedIff(s, AppOf(s, f), s.finalizers[f].phase.claimed);
      if answered && AsClaimed(s.intents[AppOf(s, f)], s.finalizers[f].phase.claimed) {
        hide ObserveStep;
        if s.intents[AppOf(s, f)].task.Rewriting? { RewriteRecovered(s, f); } else { DeleteRecovered(s, f); }
        hide Enabled;
      }
    }
  }

  /** The own intent is committed if the application has none and the row is live in it; it is at work for five minutes. */
  lemma Opens(s: World, f: nat)
    requires Enabled(s, Open(f))
    ensures var t, z, m := Step(s, Open(f)), s.finalizers[f], TargetOf(s, f); var app := s.proposals[z.proposal].app;
      && t == s.(finalizers := t.finalizers, intents := t.intents)
      && if app !in s.intents && m in s.rows && s.rows[m].live && s.rows[m].app == app then
           && Goes(s, t, f, Asking(s.rows[m]))
           && t.intents == s.intents[app := Intent(Deleting({m}), Running(s.now + SECONDS), 1, Some((f, m)))]
         else Ends(s, t, f) && t.intents == s.intents
  {
    StepIs(s, Open(f));
    hide Step, Enabled, Stop, Move;
    StopDoes(s, f);
    if TargetOf(s, f) in s.rows { MoveDoes(s, f, Asking(s.rows[TargetOf(s, f)])); }
  }

  /** The open intent of the application is the first attempt of this finalizer's own. */
  predicate Own(s: World, app: string, f: nat, m: string) {
    app in s.intents && s.intents[app].state.Running? && s.intents[app].attempts == 1 && s.intents[app].maker == Some((f, m))
  }

  /** How the upstream call ends. */
  ghost predicate Ended(s: World, t: World, f: nat, app: string, m: string, response: Response)
    requires f in s.finalizers && s.finalizers[f].phase.Asking?
  {
    var snapshot := s.finalizers[f].phase.snapshot;
    match response
    case Replied =>
      && t.intents == s.intents && t.upstream == s.upstream - {m}
      && Goes(s, t, f, if m in s.upstream then Committing(snapshot) else Missing(snapshot))
    case Refused =>
      Ends(s, t, f) && t.upstream == s.upstream && t.intents == if Own(s, app, f, m) then s.intents - {app} else s.intents
    case Lost(applied) =>
      && Ends(s, t, f) && t.upstream == (if applied then s.upstream - {m} else s.upstream)
      && t.intents == if Own(s, app, f, m) then s.intents[app := s.intents[app].(state := Unresolved)] else s.intents
  }

  lemma EndedIs(s: World, f: nat, response: Response)
    requires Busy(s, f) && s.finalizers[f].phase.Asking?
    ensures var t, z, m := AskStep(s, f, response), s.finalizers[f], TargetOf(s, f);
      && t == s.(finalizers := t.finalizers, intents := t.intents, upstream := t.upstream, log := s.log + [Called(f, z.proposal, m)])
      && Ended(s, t, f, AppOf(s, f), m, response)
  {
    hide Stop, Move, Mine, MarkUnknown;
    var z, app, m := s.finalizers[f], AppOf(s, f), TargetOf(s, f);
    var t := s.(log := s.log + [Called(f, z.proposal, m)]);
    StopDoes(t, f);
    MoveDoes(t, f, Committing(z.phase.snapshot));
    MoveDoes(t, f, Missing(z.phase.snapshot));
    OwnIs(s, app, f, m);
    if response.Lost? { OwnIs(Stop(t, f).(upstream := if response.applied then s.upstream - {m} else s.upstream), app, f, m); }
    assert m !in s.upstream ==> s.upstream - {m} == s.upstream;
  }

  /**
   * Upstream is asked to delete, which is logged: an answer means that the memory is gone, a refusal closes the own intent,
   * and without either the intent stays open, with the memory deleted or not.
   */
  lemma Asks(s: World, f: nat, response: Response)
    requires Enabled(s, Ask(f, response))
    ensures var t, z, m := Step(s, Ask(f, response)), s.finalizers[f], TargetOf(s, f); var app := s.proposals[z.proposal].app;
      && t == s.(finalizers := t.finalizers, intents := t.intents, upstream := t.upstream, log := s.log + [Called(f, z.proposal, m)])
      && Ended(s, t, f, app, m, response)
  {
    StepIs(s, Ask(f, response));
    hide Step, Enabled, Ended, AskStep;
    EndedIs(s, f, response);
  }

  /** How the last section of the delete leaves row and intent. */
  ghost predicate Committed(s: World, t: World, f: nat, app: string, m: string)
    requires f in s.finalizers && (s.finalizers[f].phase.Committing? || s.finalizers[f].phase.Missing?)
  {
    var phase := s.finalizers[f].phase;
    var same := m in s.rows && s.rows[m].live && s.rows[m] == phase.snapshot;
    if Own(s, app, f, m) && same then
      && Dead(s.rows, t.rows, {m}) && t.intents == s.intents - {app}
      && if phase.Committing? then Goes(s, t, f, Verifying) else Ends(s, t, f)
    else
      && Ends(s, t, f) && t.rows == s.rows
      && t.intents == if Own(s, app, f, m) && phase.Committing? then s.intents[app := s.intents[app].(state := Unresolved)] else s.intents
  }

  lemma CommittedIs(s: World, f: nat)
    requires Busy(s, f) && (s.finalizers[f].phase.Committing? || s.finalizers[f].phase.Missing?)
    ensures var t := CommitStep(s, f);
      t == s.(finalizers := t.finalizers, intents := t.intents, rows := t.rows) && Committed(s, t, f, AppOf(s, f), TargetOf(s, f))
  {
    hide Stop, Move, Bury, Dead, Mine, MarkUnknown;
    var phase, app, m := s.finalizers[f].phase, AppOf(s, f), TargetOf(s, f);
    StopDoes(s, f);
    MoveDoes(s, f, Verifying);
    BuryDoes(s.rows, {m});
    OwnIs(s, app, f, m);
    OwnIs(Stop(s, f), app, f, m);
  }

  /**
   * The row dies and the own intent is closed if the intent is still the finalizer's and the row as it was; with a changed row
   * the intent stays open if upstream has deleted the memory.  The call raises if upstream did not have it.
   */
  lemma Commits(s: World, f: nat)
    requires Enabled(s, Commit(f))
    ensures var t, z, m := Step(s, Commit(f)), s.finalizers[f], TargetOf(s, f); var app := s.proposals[z.proposal].app;
      t == s.(finalizers := t.finalizers, intents := t.intents, rows := t.rows) && Committed(s, t, f, app, m)
  {
    StepIs(s, Commit(f));
    hide Step, Enabled, Committed, CommitStep;
    CommittedIs(s, f);
  }

  /** Upstream is asked whether the target is gone; if it is not, the proposal fails. */
  lemma Verifies(s: World, f: nat, answered: bool)
    requires Enabled(s, Verify(f, answered))
    ensures var t, z, m := Step(s, Verify(f, answered)), s.finalizers[f], TargetOf(s, f);
      && t == s.(finalizers := t.finalizers, proposals := t.proposals, log := t.log)
      && if answered && m !in s.upstream then
           Goes(s, t, f, Recording) && t.proposals == s.proposals && t.log == s.log + [Verified(f, z.proposal, m)]
         else
           && Ends(s, t, f) && t.log == s.log
           && t.proposals == if answered then s.proposals[z.proposal := s.proposals[z.proposal].(status := Failed)] else s.proposals
  {
    StepIs(s, Verify(f, answered));
    hide Step, Enabled;
  }

  /** The target gets its lineage row, unless it has one, and the next target's turn comes. */
  lemma Records(s: World, f: nat)
    requires Enabled(s, Record(f))
    ensures var t, z, m := Step(s, Record(f)), s.finalizers[f], TargetOf(s, f);
      && t == s.(finalizers := s.finalizers[f := z.(at := z.at + 1, phase := Looking)], lineage := t.lineage, log := t.log)
      && if (z.proposal, m) in s.lineage then t.lineage == s.lineage && t.log == s.log
         else t.lineage == s.lineage + [(z.proposal, m)] && t.log == s.log + [Recorded(z.proposal, m)]
  {
    StepIs(s, Record(f));
    hide Step, Enabled;
  }

  /** Behind the last target the proposal is applied. */
  lemma Applies(s: World, f: nat)
    requires Enabled(s, Apply(f))
    ensures var t, id := Step(s, Apply(f)), s.finalizers[f].proposal;
      && s.finalizers[f].at == |s.finalizers[f].targets|
      && t == s.(finalizers := s.finalizers - {f}, proposals := s.proposals[id := s.proposals[id].(status := Applied)])
  {
    StepIs(s, Apply(f));
    hide Step, Enabled;
  }

  /** A crash, and what others do: to a row, to upstream, to an intent. */
  lemma OthersDo(s: World, e: Event)
    requires Enabled(s, e) && (e.Crash? || e.Delete? || e.Upstream? || e.Elsewhere?)
    ensures var t := Step(s, e);
      match e
      case Crash(f) => t == s.(finalizers := s.finalizers - {f})
      case Delete(m) => t == s.(rows := t.rows) && Dead(s.rows, t.rows, {m})
      case Upstream(m, None) => t == s.(upstream := s.upstream - {m})
      case Upstream(m, Some(copy)) => t == s.(upstream := s.upstream[m := copy])
      case Elsewhere(app, None) => t == s.(intents := s.intents - {app})
      case Elsewhere(app, Some(x)) => t == s.(intents := s.intents[app := x])
  {
  }
}
