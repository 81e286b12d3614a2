// Sequences of finalizer calls on one proposal, each of which may crash or fail
// and be followed by another, while nobody else touches its rows: exactly when
// they can apply it, and exactly what makes them lose the way.
module ConsolidationReruns {
  import opened Consolidation
  import opened ConsolidationFinalizing
  import opened ConsolidationFinishing
  import opened ConsolidationMoves
  import opened Wrappers

  function ViewOf(s: World, app: string): View {
    View(s.rows, s.upstream, if app in s.intents then Some(s.intents[app]) else None, s.lineage)
  }

  // ---------------------------------------------------------------- a finalizer at work

  /** The finalizer's own intent. */
  predicate OwnIntent(x: Intent, f: nat, m: string) {
    x.task == Deleting({m}) && x.state.Running? && x.attempts == 1 && x.maker == Some((f, m))
  }

  /** What a finalizer may rely on in its phase, for its target `m`. */
  ghost predicate InStep(v: View, id: nat, p: Proposal, f: nat, phase: Phase, m: string) {
    match phase
    case Looking => true
    case Checking => !Listed(v, id, m) && Fitting(v, id, p, m)
    case Claiming => ToDelete(v, id, p, m) && CanonicalMatches(v.upstream, p, p.hashes)
    case Observing(claimed) =>
      && ToDelete(v, id, p, m) && CanonicalMatches(v.upstream, p, p.hashes)
      && v.open == Some(claimed) && claimed.state.Running?
    case Opening => ToDelete(v, id, p, m) && CanonicalMatches(v.upstream, p, p.hashes) && v.open.None?
    case Asking(snapshot) =>
      && ToDelete(v, id, p, m) && CanonicalMatches(v.upstream, p, p.hashes)
      && v.open.Some? && OwnIntent(v.open.value, f, m) && v.rows[m] == snapshot
    case Committing(snapshot) =>
      && !Listed(v, id, m) && LiveIn(v.rows, p.app, m) && m !in v.upstream
      && v.open.Some? && OwnIntent(v.open.value, f, m) && v.rows[m] == snapshot
    case Missing(_) => false
    case Verifying => !Listed(v, id, m) && m in v.rows && v.rows[m].app == p.app && !v.rows[m].live
    case Recording => !Listed(v, id, m) && Buried(v, p, m)
  }

  ghost predicate InTouch(v: View, id: nat, p: Proposal, f: nat, z: Finalizer) {
    && Awaiting(p) && z.proposal == id && z.targets == Targets(p) && z.hashes == p.hashes && z.at <= |z.targets|
    && (forall k :: 0 <= k < z.at ==> Listed(v, id, z.targets[k]))
    && (if z.at < |z.targets| then InStep(v, id, p, f, z.phase, z.targets[z.at]) else z.phase.Looking?)
  }

  /** Whether the proposal can be finished by this finalizer or, after it, by others. */
  ghost predicate Hope(v: View, id: nat, p: Proposal, z: Finalizer) {
    if z.at < |z.targets| then
      match z.phase
      case Observing(claimed) => v.open.Some? && Settles(claimed.task, v.upstream) && CanFinish(Resolved(v), id, p)
      case Asking(_) => CanFinish(v.(open := None), id, p)
      case Committing(_) => CanFinish(v.(rows := Bury(v.rows, {z.targets[z.at]}), open := None), id, p)
      case _ => CanFinish(v, id, p)
    else CanFinish(v, id, p)
  }

  /** What makes reruns lose the way: an intent left open that no rerun settles. */
  predicate LosesAt(phase: Phase, e: Event) {
    match e
    case Crash(_) => phase.Asking? || phase.Committing? || (phase.Observing? && phase.claimed.attempts >= MAX_ATTEMPTS)
    case Ask(_, response) => response.Lost?
    case Observe(_, answered) => !answered && phase.Observing? && phase.claimed.attempts >= MAX_ATTEMPTS
    case _ => false
  }

  // ---------------------------------------------------------------- the stages of a sequence of reruns

  /** No rerun is at work, or finalizer `who` is. */
  ghost predicate Stage(s: World, id: nat, who: Option<nat>) {
    && id in s.proposals && s.finalizers.Keys <= s.used
    && (who.Some? ==>
          && who.value in s.finalizers
          && InTouch(ViewOf(s, s.proposals[id].app), id, s.proposals[id], who.value, s.finalizers[who.value]))
  }

  /** Applied, or on a way that can end there. */
  ghost predicate OnTheWay(s: World, id: nat, who: Option<nat>) {
    && id in s.proposals
    && var p := s.proposals[id]; var v := ViewOf(s, p.app);
      if who.Some? then who.value in s.finalizers && Hope(v, id, p, s.finalizers[who.value])
      else p.status.Applied? || CanFinish(v, id, p)
  }

  /** The next event of reruns of one proposal: time passes, a rerun begins when none is at work, or goes on. */
  predicate Rerunning(e: Event, id: nat, who: Option<nat>) {
    e.Tick? || (e.BeginFinalize? && e.id == id && who.None?) || (Working(e) && who == Some(e.f))
  }

  function Worker(t: World, e: Event, who: Option<nat>): Option<nat> {
    if e.Tick? then who
    else if e.BeginFinalize? then (if e.f in t.finalizers then Some(e.f) else None)
    else if Working(e) && e.f in t.finalizers then Some(e.f) else None
  }

  predicate Loses(s: World, e: Event) { Working(e) && e.f in s.finalizers && LosesAt(s.finalizers[e.f].phase, e) }

  /** From stage (s, who) to stage (t, end). */
  ghost predicate Reruns(s: World, id: nat, who: Option<nat>, es: seq<Event>, t: World, end: Option<nat>)
    decreases |es|
  {
    if es == [] then s == t && who == end
    else Enabled(s, es[0]) && Rerunning(es[0], id, who)
         && Reruns(Step(s, es[0]), id, Worker(Step(s, es[0]), es[0], who), es[1..], t, end)
  }

  ghost predicate EverLoses(s: World, es: seq<Event>)
    decreases |es|
  {
    es != [] && (Loses(s, es[0]) || (Enabled(s, es[0]) && EverLoses(Step(s, es[0]), es[1..])))
  }

  // ---------------------------------------------------------------- what the steps do to the view

  lemma StopView(s: World, f: nat, app: string)
    ensures var t := Stop(s, f);
      && ViewOf(t, app) == ViewOf(s, app) && t.proposals == s.proposals && f !in t.finalizers && t.used == s.used
      && t.finalizers.Keys <= s.finalizers.Keys && t.intents == s.intents && t.rows == s.rows && t.upstream == s.upstream
  {
  }

  lemma MoveView(s: World, f: nat, phase: Phase, app: string)
    requires f in s.finalizers
    ensures var t := Move(s, f, phase);
      && ViewOf(t, app) == ViewOf(s, app) && t.proposals == s.proposals && t.used == s.used
      && f in t.finalizers && t.finalizers[f] == s.finalizers[f].(phase := phase)
      && t.finalizers.Keys == s.finalizers.Keys && t.intents == s.intents && t.rows == s.rows && t.upstream == s.upstream
  {
  }

  lemma FailView(s: World, f: nat, id: nat, app: string)
    requires id in s.proposals
    ensures var t := FailProposal(s, f, id);
      && ViewOf(t, app) == ViewOf(s, app) && f !in t.finalizers && t.used == s.used && t.finalizers.Keys <= s.finalizers.Keys
      && id in t.proposals && t.proposals[id] == s.proposals[id].(status := Failed)
  {
  }

  /** The step of finalizer `f` leads to a stage, and stays on the way exactly if it was and does not lose it. */
  ghost predicate Follows(s: World, id: nat, f: nat, e: Event, t: World) {
    var end := if f in t.finalizers then Some(f) else None;
    Stage(t, id, end) && (OnTheWay(t, id, end) <==> OnTheWay(s, id, Some(f)) && !Loses(s, e))
  }

  /** The finalizer goes on. */
  lemma GoesOn(s: World, id: nat, f: nat, e: Event, t: World)
    requires Stage(s, id, Some(f)) && t.proposals == s.proposals && t.finalizers.Keys <= s.used == t.used && f in t.finalizers
    requires var p := s.proposals[id]; var v, w := ViewOf(s, p.app), ViewOf(t, p.app);
      && InTouch(w, id, p, f, t.finalizers[f])
      && (Hope(w, id, p, t.finalizers[f]) <==> Hope(v, id, p, s.finalizers[f]) && !Loses(s, e))
    ensures Follows(s, id, f, e, t)
  {
    hide InTouch, Hope, Loses;
  }

  /** The finalizer stops, and leaves the proposal alone. */
  lemma Leaves(s: World, id: nat, f: nat, e: Event, t: World)
    requires Stage(s, id, Some(f)) && t.proposals == s.proposals && t.finalizers.Keys <= s.used == t.used && f !in t.finalizers
    requires var p := s.proposals[id]; var v, w := ViewOf(s, p.app), ViewOf(t, p.app);
      CanFinish(w, id, p) <==> Hope(v, id, p, s.finalizers[f]) && !Loses(s, e)
    ensures Follows(s, id, f, e, t)
  {
    hide Hope, Loses, CanFinish, InStep;
  }

  /** The finalizer stops, and the proposal has failed. */
  lemma Fails(s: World, id: nat, f: nat, e: Event, t: World)
    requires Stage(s, id, Some(f)) && t.finalizers.Keys <= s.used == t.used && f !in t.finalizers
    requires id in t.proposals && t.proposals[id] == s.proposals[id].(status := Failed)
    requires var p := s.proposals[id]; !Hope(ViewOf(s, p.app), id, p, s.finalizers[f])
    ensures Follows(s, id, f, e, t)
  {
    hide Hope, Loses, InStep;
  }

  /** Where a look leads, while the finalizer is in touch. */
  lemma LookLeads(s: World, id: nat, f: nat)
    requires Stage(s, id, Some(f)) && InPhase(s, f, Looking)
    ensures var p, z, t := s.proposals[id], s.finalizers[f], LookStep(s, f); var v, m := ViewOf(s, p.app), z.targets[z.at];
      && z.proposal == id && Next(v, id, p, z.at) && m == Targets(p)[z.at]
      && if Listed(v, id, m) then
           t == s.(finalizers := s.finalizers[f := z.(at := z.at + 1)])
         else if m in v.rows && v.rows[m].app == p.app && !v.rows[m].live then t == Move(s, f, Verifying)
         else if Fitting(v, id, p, m) then t == Move(s, f, Checking).(log := t.log)
         else t == FailProposal(s, f, id) || t == Stop(s, f)
  {
    hide Stop, FailProposal, Move, Targets;
  }

  /** A target whose turn has come and that is neither recorded nor gone must fit. */
  lemma UnfitNext(v: View, id: nat, p: Proposal, at: nat)
    requires Next(v, id, p, at)
    ensures var m := Targets(p)[at];
      !Listed(v, id, m) && !Buried(v, p, m) && !Fitting(v, id, p, m) ==> !CanFinish(v, id, p)
  {
    if CanFinish(v, id, p) { LiveNext(v, id, p, at); }
  }

  lemma LookStops(s: World, id: nat, f: nat)
    requires Stage(s, id, Some(f)) && InPhase(s, f, Looking) && f !in LookStep(s, f).finalizers
    ensures Follows(s, id, f, Look(f), LookStep(s, f))
  {
    var p, z, t := s.proposals[id], s.finalizers[f], LookStep(s, f);
    LookLeads(s, id, f);
    UnfitNext(ViewOf(s, p.app), id, p, z.at);
    StopView(s, f, p.app);
    FailView(s, f, id, p.app);
    MoveView(s, f, Checking, p.app);
    MoveView(s, f, Verifying, p.app);
    hide LookStep, Stop, FailProposal, Move, CanFinish, Fitting, Targets, Next, Follows, ViewOf;
    if t == Stop(s, f) { Leaves(s, id, f, Look(f), t); } else { Fails(s, id, f, Look(f), t); }
  }

  lemma LookPasses(s: World, id: nat, f: nat)
    requires Stage(s, id, Some(f)) && InPhase(s, f, Looking)
    requires Listed(ViewOf(s, s.proposals[id].app), id, s.finalizers[f].targets[s.finalizers[f].at])
    ensures Follows(s, id, f, Look(f), LookStep(s, f))
  {
    var p, z, t := s.proposals[id], s.finalizers[f], LookStep(s, f);
    LookLeads(s, id, f);
    assert ViewOf(t, p.app) == ViewOf(s, p.app) && t.proposals == s.proposals && t.finalizers.Keys == s.finalizers.Keys;
    hide LookStep, CanFinish, Targets, Next, Follows, ViewOf;
    GoesOn(s, id, f, Look(f), t);
  }

  lemma LookFollows(s: World, id: nat, f: nat)
    requires Stage(s, id, Some(f)) && InPhase(s, f, Looking)
    ensures Follows(s, id, f, Look(f), LookStep(s, f))
  {
    var p, z, t := s.proposals[id], s.finalizers[f], LookStep(s, f);
    if f !in t.finalizers {
      LookStops(s, id, f);
    } else if Listed(ViewOf(s, p.app), id, z.targets[z.at]) {
      LookPasses(s, id, f);
    } else {
      LookLeads(s, id, f);
      StopView(s, f, p.app);
      FailView(s, f, id, p.app);
      MoveView(s, f, Checking, p.app);
      MoveView(s, f, Verifying, p.app);
      hide LookStep, Stop, FailProposal, Move, CanFinish, Fitting, Targets, Next, Follows;
      GoesOn(s, id, f, Look(f), t);
    }
  }

  lemma CheckFollows(s: World, id: nat, f: nat, answered: bool)
    requires Stage(s, id, Some(f)) && InPhase(s, f, Checking)
    ensures Follows(s, id, f, Check(f, answered), CheckStep(s, f, answered))
  {
    var p, t := s.proposals[id], CheckStep(s, f, answered);
    StopView(s, f, p.app);
    MoveView(s, f, Claiming, p.app);
    hide Stop, Move, CanFinish, Targets, Follows, CanonicalMatches, UpstreamMatches, Fitting;
    if t == Stop(s, f) { Leaves(s, id, f, Check(f, answered), t); } else { GoesOn(s, id, f, Check(f, answered), t); }
  }

  /** The intent that a claim leaves. */
  function ClaimedFrom(x: Intent, now: int): Intent { x.(state := Running(now + LEASE), attempts := x.attempts + 1) }

  lemma ClaimLeads(s: World, id: nat, f: nat)
    requires Stage(s, id, Some(f)) && InPhase(s, f, Claiming)
    ensures var p, t := s.proposals[id], ClaimStep(s, f); var v, w := ViewOf(s, p.app), ViewOf(t, p.app);
      && t.proposals == s.proposals && t.finalizers.Keys <= s.used == t.used
      && match v.open
         case None => t == Move(s, f, Opening)
         case Some(x) =>
           if x.state.Spent? || (x.state.Running? && s.now < x.state.lease) then t == Stop(s, f)
           else if x.attempts >= MAX_ATTEMPTS then f !in t.finalizers && w == v.(open := Some(x.(state := Spent)))
           else
             && w == v.(open := Some(ClaimedFrom(x, s.now))) && f in t.finalizers
             && t.finalizers[f] == s.finalizers[f].(phase := Observing(ClaimedFrom(x, s.now)))
  {
    var app := s.proposals[id].app;
    StopView(s, f, app);
    MoveView(s, f, Opening, app);
    if app in s.intents { MoveView(s, f, Observing(ClaimedFrom(s.intents[app], s.now)), app); }
    hide Stop, Move, InStep;
  }

  lemma ClaimFollows(s: World, id: nat, f: nat)
    requires Stage(s, id, Some(f)) && InPhase(s, f, Claiming)
    ensures Follows(s, id, f, Claim(f), ClaimStep(s, f))
  {
    var p, z, t := s.proposals[id], s.finalizers[f], ClaimStep(s, f);
    var v, w, m := ViewOf(s, p.app), ViewOf(t, p.app), z.targets[z.at];
    ClaimLeads(s, id, f);
    StopView(s, f, p.app);
    MoveView(s, f, Opening, p.app);
    assert Next(v, id, p, z.at) && ToDelete(v, id, p, m) && m in Targets(p);
    hide ClaimStep, Stop, Move, CanFinish, Targets, Follows, Settles, Resolved;
    if v.open.None? {
      GoesOn(s, id, f, Claim(f), t);
    } else {
      var x := v.open.value;
      ResolvedIff(v, id, p, z.at);
      if t == Stop(s, f) {
        Leaves(s, id, f, Claim(f), t);
      } else if x.attempts >= MAX_ATTEMPTS {
        Blocked(w, id, p, m);
        Leaves(s, id, f, Claim(f), t);
      } else {
        assert Resolved(w) == Resolved(v) by { SameTask(v, w); }
        GoesOn(s, id, f, Claim(f), t);
      }
    }
  }

  /** What is left once an intent is settled depends on its task only. */
  lemma SameTask(v: View, w: View)
    requires v.open.Some? && w.open.Some? && w.open.value.task == v.open.value.task && w == v.(open := w.open)
    ensures Resolved(w) == Resolved(v)
  {
  }

  /** Recovery leaves a target alone that is still there upstream. */
  lemma StillToDelete(v: View, id: nat, p: Proposal, m: string, w: View)
    requires ToDelete(v, id, p, m) && v.open.Some?
    requires w.rows == Bury(v.rows, Vanished(v.open.value.task, v.upstream)) && w.upstream == v.upstream && w.lineage == v.lineage
    ensures ToDelete(w, id, p, m)
  {
    hide TargetFits;
  }

  lemma StillUnsettled(x: Intent, upstream: map<string, Copy>)
    requires !Settles(x.task, upstream)
    ensures !Recovers(MarkUnresolved(x).(task := Remaining(x.task, upstream)), upstream)
  {
    if x.task.Deleting? {
      var m :| m in x.task.memories && m in upstream;
      assert m in Remaining(x.task, upstream).memories;
    }
  }

  lemma ObserveLeads(s: World, id: nat, f: nat, answered: bool)
    requires Stage(s, id, Some(f)) && Enabled(s, Observe(f, answered))
    ensures var p, t := s.proposals[id], ObserveStep(s, f, answered); var v, w := ViewOf(s, p.app), ViewOf(t, p.app);
      && t.proposals == s.proposals && t.finalizers.Keys <= s.used == t.used && v.open == Some(s.finalizers[f].phase.claimed)
      && var x := v.open.value;
        if !answered then f !in t.finalizers && w == v.(open := Some(MarkUnresolved(x)))
        else if Settles(x.task, v.upstream) then
          w == Resolved(v) && f in t.finalizers && t.finalizers[f] == s.finalizers[f].(phase := Opening)
        else
          && f !in t.finalizers
          && w == v.(rows := Resolved(v).rows, open := Some(MarkUnresolved(x).(task := Remaining(x.task, v.upstream))))
  {
    var app := s.proposals[id].app;
    var t := s.(rows := Bury(s.rows, Vanished(s.intents[app].task, s.upstream)));
    StopView(s, f, app);
    StopView(t, f, app);
    MoveView(t, f, Opening, app);
    hide Stop, Move, Bury, Vanished, Settles, MarkUnresolved, Remaining, ToDelete, CanonicalMatches, Targets;
  }

  lemma ObserveFollows(s: World, id: nat, f: nat, answered: bool)
    requires Stage(s, id, Some(f)) && Enabled(s, Observe(f, answered))
    ensures Follows(s, id, f, Observe(f, answered), ObserveStep(s, f, answered))
  {
    var p, z, t := s.proposals[id], s.finalizers[f], ObserveStep(s, f, answered);
    var v, w, m := ViewOf(s, p.app), ViewOf(t, p.app), z.targets[z.at];
    var x := z.phase.claimed;
    ObserveLeads(s, id, f, answered);
    assert Next(v, id, p, z.at) && ToDelete(v, id, p, m) && m in Targets(p);
    hide ObserveStep, Targets, Follows, CanFinish, Resolved, Settles, Remaining;
    if !answered {
      SameTask(v, w);
      ResolvedIff(w, id, p, z.at);
      hide ToDelete, CanonicalMatches;
      Leaves(s, id, f, Observe(f, answered), t);
    } else if Settles(x.task, v.upstream) {
      assert ToDelete(w, id, p, m) && w.open.None? && w.upstream == v.upstream && w.lineage == v.lineage by {
        ResolvedIs(v);
        StillToDelete(v, id, p, m, w);
      }
      hide ToDelete, CanonicalMatches;
      GoesOn(s, id, f, Observe(f, answered), t);
    } else {
      ResolvedIs(v);
      StillToDelete(v, id, p, m, w);
      StillUnsettled(x, v.upstream);
      Blocked(w, id, p, m);
      hide ToDelete, CanonicalMatches;
      Leaves(s, id, f, Observe(f, answered), t);
    }
  }

  lemma ResolvedIs(v: View)
    requires v.open.Some?
    ensures var r := Resolved(v);
      && r.rows == Bury(v.rows, Vanished(v.open.value.task, v.upstream)) && r.open.None?
      && r.upstream == v.upstream && r.lineage == v.lineage
  {
  }

  lemma OpenFollows(s: World, id: nat, f: nat)
    requires Stage(s, id, Some(f)) && InPhase(s, f, Opening)
    ensures Follows(s, id, f, Open(f), OpenStep(s, f))
  {
    var p, z, t := s.proposals[id], s.finalizers[f], OpenStep(s, f);
    var v, w, m := ViewOf(s, p.app), ViewOf(t, p.app), z.targets[z.at];
    assert LiveIn(s.rows, p.app, m);
    MoveView(s, f, Asking(s.rows[m]), p.app);
    hide Move, Stop, CanFinish, Targets, Follows, UpstreamMatches, CanonicalMatches, Fitting;
    assert w == v.(open := Some(Intent(Task.Deleting({m}), Running(s.now + LEASE), 1, Some((f, m)))));
    assert v == w.(open := None);
    GoesOn(s, id, f, Open(f), t);
  }

  /** How an upstream delete leaves the tables: the own intent is current. */
  lemma AskLeads(s: World, id: nat, f: nat, response: Response)
    requires Stage(s, id, Some(f)) && Enabled(s, Ask(f, response))
    ensures var p, z, t := s.proposals[id], s.finalizers[f], AskStep(s, f, response);
      var v, w, m := ViewOf(s, p.app), ViewOf(t, p.app), z.targets[z.at];
      && t.proposals == s.proposals && t.finalizers.Keys <= s.used == t.used && m in v.upstream && v.open.Some?
      && match response
         case Replied =>
           && w == v.(upstream := v.upstream - {m}) && f in t.finalizers
           && t.finalizers[f] == z.(phase := Committing(z.phase.snapshot))
         case Refused => f !in t.finalizers && w == v.(open := None)
         case Lost(applied) =>
           && f !in t.finalizers
           && w == v.(upstream := if applied then v.upstream - {m} else v.upstream, open := Some(MarkUnresolved(v.open.value)))
  {
    var app, snapshot := s.proposals[id].app, s.finalizers[f].phase.snapshot;
    var t := s.(log := s.log + [Called(f, s.finalizers[f].proposal, TargetOf(s, f))]);
    StopView(t, f, app);
    MoveView(t, f, Committing(snapshot), app);
    hide Stop, Move, MarkUnresolved, CanonicalMatches, Targets;
    assert Mine(s, app, f, TargetOf(s, f));
  }

  /** Once upstream has deleted the target, only its row is left to delete. */
  lemma AskedBecomes(v: View, id: nat, p: Proposal, f: nat, z: Finalizer)
    requires z.at < |z.targets| && z.phase.Asking? && InStep(v, id, p, f, z.phase, z.targets[z.at])
    ensures var m := z.targets[z.at]; var w := v.(upstream := v.upstream - {m});
      && InStep(w, id, p, f, Committing(z.phase.snapshot), m)
      && Deleted(v.(open := None), m) == w.(rows := Bury(w.rows, {m}), open := None)
  {
    hide TargetFits, CanonicalMatches;
  }

  lemma AskedHope(v: View, id: nat, p: Proposal, f: nat, z: Finalizer)
    requires InTouch(v, id, p, f, z) && z.at < |z.targets| && z.phase.Asking?
    ensures var w, y := v.(upstream := v.upstream - {z.targets[z.at]}), z.(phase := Committing(z.phase.snapshot));
      InTouch(w, id, p, f, y) && (Hope(w, id, p, y) <==> Hope(v, id, p, z))
  {
    var m := z.targets[z.at];
    assert m in Targets(p) && ToDelete(v.(open := None), id, p, m);
    DeletedIff(v.(open := None), id, p, m);
    AskedBecomes(v, id, p, f, z);
    hide Targets, CanFinish, InStep, Deleted, Bury;
  }

  lemma RepliedFollows(s: World, id: nat, f: nat)
    requires Stage(s, id, Some(f)) && Enabled(s, Ask(f, Replied))
    ensures Follows(s, id, f, Ask(f, Replied), AskStep(s, f, Replied))
  {
    AskLeads(s, id, f, Replied);
    AskedHope(ViewOf(s, s.proposals[id].app), id, s.proposals[id], f, s.finalizers[f]);
    hide AskStep, Follows, InTouch, Hope, ViewOf;
    GoesOn(s, id, f, Ask(f, Replied), AskStep(s, f, Replied));
  }

  lemma LostLeaves(s: World, id: nat, f: nat, applied: bool)
    requires Stage(s, id, Some(f)) && Enabled(s, Ask(f, Lost(applied)))
    ensures var p := s.proposals[id]; !CanFinish(ViewOf(AskStep(s, f, Lost(applied)), p.app), id, p)
  {
    var p, z, t := s.proposals[id], s.finalizers[f], AskStep(s, f, Lost(applied));
    var v, w, m := ViewOf(s, p.app), ViewOf(t, p.app), z.targets[z.at];
    AskLeads(s, id, f, Lost(applied));
    assert Next(w, id, p, z.at) && ToDelete(v, id, p, m) && m in Targets(p);
    hide AskStep, Targets, CanFinish, CanonicalMatches, TargetFits;
    if applied {
      GoneOnly(w, id, p, z.at);
    } else {
      assert ToDelete(w, id, p, m) && w.open.value.task == Task.Deleting({m});
      Blocked(w, id, p, m);
    }
  }

  lemma AskFollows(s: World, id: nat, f: nat, response: Response)
    requires Stage(s, id, Some(f)) && Enabled(s, Ask(f, response))
    ensures Follows(s, id, f, Ask(f, response), AskStep(s, f, response))
  {
    if response.Replied? {
      RepliedFollows(s, id, f);
    } else {
      AskLeads(s, id, f, response);
      if response.Lost? { LostLeaves(s, id, f, response.applied); }
      hide AskStep, Targets, Follows, CanFinish, CanonicalMatches, ToDelete;
      Leaves(s, id, f, Ask(f, response), AskStep(s, f, response));
    }
  }

  lemma CommitLeads(s: World, id: nat, f: nat)
    requires Stage(s, id, Some(f)) && Enabled(s, Commit(f))
    ensures var p, z, t := s.proposals[id], s.finalizers[f], CommitStep(s, f);
      var v, w, m := ViewOf(s, p.app), ViewOf(t, p.app), z.targets[z.at];
      && t.proposals == s.proposals && t.finalizers.Keys <= s.used == t.used && z.phase.Committing?
      && w == v.(rows := Bury(v.rows, {m}), open := None)
      && f in t.finalizers && t.finalizers[f] == z.(phase := Verifying)
  {
    var app := s.proposals[id].app;
    StopView(s, f, app);
    MoveView(s, f, Verifying, app);
    hide Stop, Move, MarkUnresolved, CanonicalMatches, Targets, Bury;
    assert Mine(s, app, f, TargetOf(s, f)) && SameRow(s.rows, TargetOf(s, f), s.finalizers[f].phase.snapshot);
  }

  lemma CommitFollows(s: World, id: nat, f: nat)
    requires Stage(s, id, Some(f)) && Enabled(s, Commit(f))
    ensures Follows(s, id, f, Commit(f), CommitStep(s, f))
  {
    CommitLeads(s, id, f);
    hide CommitStep, Targets, Follows, CanFinish, CanonicalMatches, TargetFits;
    GoesOn(s, id, f, Commit(f), CommitStep(s, f));
  }

  lemma VerifyLeads(s: World, id: nat, f: nat, answered: bool)
    requires Stage(s, id, Some(f)) && InPhase(s, f, Verifying)
    ensures var z, t := s.finalizers[f], VerifyStep(s, f, answered);
      if !answered then t == Stop(s, f)
      else if z.targets[z.at] in s.upstream then t == FailProposal(s, f, id)
      else t == Move(s, f, Recording).(log := t.log)
  {
    hide Stop, Move, FailProposal, Targets;
  }

  lemma VerifyFollows(s: World, id: nat, f: nat, answered: bool)
    requires Stage(s, id, Some(f)) && InPhase(s, f, Verifying)
    ensures Follows(s, id, f, Verify(f, answered), VerifyStep(s, f, answered))
  {
    var p, z, t := s.proposals[id], s.finalizers[f], VerifyStep(s, f, answered);
    var v, m := ViewOf(s, p.app), z.targets[z.at];
    VerifyLeads(s, id, f, answered);
    StopView(s, f, p.app);
    FailView(s, f, id, p.app);
    MoveView(s, f, Recording, p.app);
    assert Next(v, id, p, z.at) && z.targets == Targets(p);
    if CanFinish(v, id, p) { LiveNext(v, id, p, z.at); }
    hide VerifyStep, Stop, FailProposal, Move, CanFinish, Targets, Follows;
    if t == FailProposal(s, f, id) && answered && m in s.upstream {
      Fails(s, id, f, Verify(f, answered), t);
    } else if !answered {
      Leaves(s, id, f, Verify(f, answered), t);
    } else {
      GoesOn(s, id, f, Verify(f, answered), t);
    }
  }

  lemma RecordLeads(s: World, id: nat, f: nat)
    requires Stage(s, id, Some(f)) && InPhase(s, f, Recording)
    ensures var p, z, t := s.proposals[id], s.finalizers[f], RecordStep(s, f);
      var v, w, m := ViewOf(s, p.app), ViewOf(t, p.app), z.targets[z.at];
      && t.proposals == s.proposals && t.finalizers.Keys <= s.used == t.used && w == Noted(v, id, m)
      && f in t.finalizers && t.finalizers[f] == z.(at := z.at + 1, phase := Looking)
  {
    hide Targets;
  }

  lemma RecordFollows(s: World, id: nat, f: nat)
    requires Stage(s, id, Some(f)) && InPhase(s, f, Recording)
    ensures Follows(s, id, f, Record(f), RecordStep(s, f))
  {
    var p, z, t := s.proposals[id], s.finalizers[f], RecordStep(s, f);
    RecordLeads(s, id, f);
    NotedIff(ViewOf(s, p.app), id, p, z.targets[z.at]);
    hide RecordStep, Targets, Follows, CanFinish, Buried;
    GoesOn(s, id, f, Record(f), t);
  }

  lemma ApplyFollows(s: World, id: nat, f: nat)
    requires Stage(s, id, Some(f)) && f in s.finalizers && Ready(s, Apply(f))
    ensures Follows(s, id, f, Apply(f), ApplyStep(s, f)) && ApplyStep(s, f).proposals[id].status.Applied?
  {
    var p := s.proposals[id];
    AllListed(ViewOf(s, p.app), id, p);
    hide CanFinish, Targets;
  }

  lemma CrashFollows(s: World, id: nat, f: nat)
    requires Stage(s, id, Some(f))
    ensures Follows(s, id, f, Crash(f), Stop(s, f))
  {
    var p, z, t := s.proposals[id], s.finalizers[f], Stop(s, f);
    var v := ViewOf(s, p.app);
    StopView(s, f, p.app);
    if z.at < |z.targets| { CrashJudged(v, id, p, f, z); }
    hide Stop, Targets, Follows, CanFinish, InStep, Resolved, Settles;
    Leaves(s, id, f, Crash(f), t);
  }

  /** A crash loses the way between the commit of the own intent and the commit of the row, or in the last claim of another's. */
  lemma CrashJudged(v: View, id: nat, p: Proposal, f: nat, z: Finalizer)
    requires InTouch(v, id, p, f, z) && z.at < |z.targets|
    ensures CanFinish(v, id, p) <==> Hope(v, id, p, z) && !LosesAt(z.phase, Crash(f))
  {
    var m := z.targets[z.at];
    assert Next(v, id, p, z.at) && m == Targets(p)[z.at];
    hide Targets, CanFinish, CanonicalMatches, Resolved;
    if z.phase.Observing? {
      hide Settles;
      ResolvedIff(v, id, p, z.at);
    } else if z.phase.Asking? {
      Blocked(v, id, p, m);
    } else if z.phase.Committing? {
      GoneOnly(v, id, p, z.at);
    }
  }

  lemma WorkingFollows(s: World, id: nat, f: nat, e: Event)
    requires Stage(s, id, Some(f)) && Working(e) && e.f == f && f in s.finalizers && Ready(s, e)
    ensures Follows(s, id, f, e, FinalizerStep(s, e))
  {
    hide Stage, Follows, LookStep, CheckStep, ClaimStep, ObserveStep, OpenStep, AskStep, CommitStep, VerifyStep, RecordStep, ApplyStep, Stop;
    match e
    case Look(f) => LookFollows(s, id, f);
    case Check(f, answered) => CheckFollows(s, id, f, answered);
    case Claim(f) => ClaimFollows(s, id, f);
    case Observe(f, answered) => ObserveFollows(s, id, f, answered);
    case Open(f) => OpenFollows(s, id, f);
    case Ask(f, response) => AskFollows(s, id, f, response);
    case Commit(f) => CommitFollows(s, id, f);
    case Verify(f, answered) => VerifyFollows(s, id, f, answered);
    case Record(f) => RecordFollows(s, id, f);
    case Apply(f) => ApplyFollows(s, id, f);
    case Crash(f) => CrashFollows(s, id, f);
  }

  lemma TickFollows(s: World, id: nat, who: Option<nat>, elapsed: nat)
    requires Stage(s, id, who)
    ensures var t := s.(now := s.now + elapsed); Stage(t, id, who) && (OnTheWay(t, id, who) <==> OnTheWay(s, id, who))
  {
    assert ViewOf(s.(now := s.now + elapsed), s.proposals[id].app) == ViewOf(s, s.proposals[id].app);
    hide InTouch, Hope, CanFinish;
  }

  lemma BeginFollows(s: World, id: nat, f: nat, enabled: bool)
    requires Stage(s, id, None) && f !in s.used
    ensures var t := FinalizeStep(s, f, id, enabled); var end := if f in t.finalizers then Some(f) else None;
      Stage(t, id, end) && (OnTheWay(t, id, end) <==> OnTheWay(s, id, None))
  {
    assert ViewOf(FinalizeStep(s, f, id, enabled), s.proposals[id].app) == ViewOf(s, s.proposals[id].app);
    hide CanFinish, Targets;
  }

  /** A step of reruns stays on the way exactly if it was on it and does not lose it. */
  lemma StepFollows(s: World, id: nat, who: Option<nat>, e: Event)
    requires Stage(s, id, who) && Enabled(s, e) && Rerunning(e, id, who)
    ensures var t := Step(s, e); var end := Worker(t, e, who);
      Stage(t, id, end) && (OnTheWay(t, id, end) <==> OnTheWay(s, id, who) && !Loses(s, e))
  {
    hide Stage, OnTheWay, Ready, FinalizeStep, FinalizerStep;
    if e.Tick? { TickFollows(s, id, who, e.elapsed); }
    else if e.BeginFinalize? { BeginFollows(s, id, e.f, e.enabled); }
    else { WorkingFollows(s, id, e.f, e); }
  }

  // ---------------------------------------------------------------- what sequences of reruns come to

  /**
   * After any sequence of reruns, however often they crash or fail: the proposal is applied or can still be, exactly if
   * it could at the start and none of the events lost the way.
   */
  lemma {:induction false} RerunsStay(s: World, id: nat, who: Option<nat>, es: seq<Event>, t: World, end: Option<nat>)
    requires Stage(s, id, who) && Reruns(s, id, who, es, t, end)
    ensures Stage(t, id, end) && (OnTheWay(t, id, end) <==> OnTheWay(s, id, who) && !EverLoses(s, es))
    decreases |es|
  {
    if es != [] {
      StepFollows(s, id, who, es[0]);
      hide Stage, OnTheWay, Step, Enabled, Loses, Rerunning, Worker;
      RerunsStay(Step(s, es[0]), id, Worker(Step(s, es[0]), es[0], who), es[1..], t, end);
    }
  }

  /** What the finalizer does next if nothing fails. */
  function NextEvent(z: Finalizer, f: nat): Event {
    match z.phase
    case Looking => if z.at == |z.targets| then Apply(f) else Look(f)
    case Checking => Check(f, true)
    case Claiming => Claim(f)
    case Observing(_) => Observe(f, true)
    case Opening => Open(f)
    case Asking(_) => Ask(f, Replied)
    case Committing(_) => Commit(f)
    case Missing(_) => Commit(f)
    case Verifying => Verify(f, true)
    case Recording => Record(f)
  }

  function Rank(phase: Phase): nat {
    match phase
    case Looking => 9
    case Checking => 8
    case Claiming => 7
    case Observing(_) => 6
    case Opening => 5
    case Asking(_) => 4
    case Committing(_) => 3
    case Missing(_) => 2
    case Verifying => 1
    case Recording => 0
  }

  function Left(z: Finalizer): int { (|z.targets| - z.at) * 10 + Rank(z.phase) }

  /** The lease of the open intent is over when the finalizer comes to claim it. */
  predicate Timely(s: World, f: nat) {
    Busy(s, f) && s.finalizers[f].phase.Claiming? && AppOf(s, f) in s.intents && s.intents[AppOf(s, f)].state.Running? ==>
      s.intents[AppOf(s, f)].state.lease <= s.now
  }

  /** A finalizer on the way goes on, and has less left to do, or applies the proposal. */
  ghost predicate Advances(s: World, id: nat, f: nat, t: World) {
    && id in t.proposals && f in s.finalizers
    && if f in t.finalizers then 0 <= Left(t.finalizers[f]) < Left(s.finalizers[f]) else t.proposals[id].status.Applied?
  }

  lemma LookAdvances(s: World, id: nat, f: nat)
    requires Stage(s, id, Some(f)) && OnTheWay(s, id, Some(f)) && InPhase(s, f, Looking)
    ensures Advances(s, id, f, LookStep(s, f))
  {
    var p, z := s.proposals[id], s.finalizers[f];
    LookLeads(s, id, f);
    UnfitNext(ViewOf(s, p.app), id, p, z.at);
    MoveView(s, f, Checking, p.app);
    MoveView(s, f, Verifying, p.app);
    assert CanFinish(ViewOf(s, p.app), id, p);
    hide LookStep, Move, Stop, FailProposal, CanFinish, Targets, Fitting, Next, InTouch, Hope, OnTheWay, Stage;
  }

  lemma CheckAdvances(s: World, id: nat, f: nat)
    requires Stage(s, id, Some(f)) && OnTheWay(s, id, Some(f)) && InPhase(s, f, Checking)
    ensures Advances(s, id, f, CheckStep(s, f, true))
  {
    var p, z := s.proposals[id], s.finalizers[f];
    var v := ViewOf(s, p.app);
    assert Next(v, id, p, z.at);
    LiveNext(v, id, p, z.at);
    MoveView(s, f, Claiming, p.app);
    hide Move, CanFinish, Targets, TargetFits;
  }

  lemma ClaimAdvances(s: World, id: nat, f: nat)
    requires Stage(s, id, Some(f)) && OnTheWay(s, id, Some(f)) && InPhase(s, f, Claiming) && Timely(s, f)
    ensures Advances(s, id, f, ClaimStep(s, f))
  {
    var p, z := s.proposals[id], s.finalizers[f];
    var v := ViewOf(s, p.app);
    assert z.targets[z.at] in Targets(p) && ToDelete(v, id, p, z.targets[z.at]);
    assert CanFinish(v, id, p) && Clear(v, p);
    ClaimLeads(s, id, f);
    MoveView(s, f, Opening, p.app);
    hide ClaimStep, Move, CanFinish, Targets, ToDelete, CanonicalMatches, Settles;
  }

  lemma VerifyAdvances(s: World, id: nat, f: nat)
    requires Stage(s, id, Some(f)) && OnTheWay(s, id, Some(f)) && InPhase(s, f, Verifying)
    ensures Advances(s, id, f, VerifyStep(s, f, true))
  {
    var p, z := s.proposals[id], s.finalizers[f];
    var v := ViewOf(s, p.app);
    assert Next(v, id, p, z.at);
    LiveNext(v, id, p, z.at);
    MoveView(s, f, Recording, p.app);
    VerifyLeads(s, id, f, true);
    hide VerifyStep, Move, CanFinish, Targets;
  }

  lemma ObserveAdvances(s: World, id: nat, f: nat)
    requires Stage(s, id, Some(f)) && OnTheWay(s, id, Some(f)) && Enabled(s, Observe(f, true))
    ensures Advances(s, id, f, ObserveStep(s, f, true))
  {
    ObserveLeads(s, id, f, true);
    hide ObserveStep, CanFinish, Targets, ToDelete, CanonicalMatches, Settles, Resolved;
  }

  lemma AskAdvances(s: World, id: nat, f: nat)
    requires Stage(s, id, Some(f)) && Enabled(s, Ask(f, Replied))
    ensures Advances(s, id, f, AskStep(s, f, Replied))
  {
    AskLeads(s, id, f, Replied);
    hide AskStep, Targets, ToDelete, CanonicalMatches;
  }

  lemma CommitAdvances(s: World, id: nat, f: nat)
    requires Stage(s, id, Some(f)) && Enabled(s, Commit(f))
    ensures Advances(s, id, f, CommitStep(s, f))
  {
    CommitLeads(s, id, f);
    hide CommitStep, Targets;
  }

  lemma RecordAdvances(s: World, id: nat, f: nat)
    requires Stage(s, id, Some(f)) && InPhase(s, f, Recording)
    ensures Advances(s, id, f, RecordStep(s, f))
  {
    RecordLeads(s, id, f);
    hide RecordStep, Targets;
  }

  lemma OpenAdvances(s: World, id: nat, f: nat)
    requires Stage(s, id, Some(f)) && InPhase(s, f, Opening)
    ensures Advances(s, id, f, OpenStep(s, f))
  {
    var p, m := s.proposals[id], TargetOf(s, f);
    assert LiveIn(s.rows, p.app, m);
    MoveView(s, f, Asking(s.rows[m]), p.app);
    hide Move, Stop, Targets, UpstreamMatches, CanonicalMatches, Fitting;
  }

  lemma NextReady(s: World, id: nat, f: nat)
    requires Stage(s, id, Some(f))
    ensures var e := NextEvent(s.finalizers[f], f); Working(e) && e.f == f && Ready(s, e) && !Loses(s, e)
  {
    hide Targets, ToDelete, CanonicalMatches, Fitting;
  }

  lemma NextStep(s: World, id: nat, f: nat, e: Event)
    requires Stage(s, id, Some(f)) && OnTheWay(s, id, Some(f)) && Timely(s, f)
    requires f in s.finalizers && e == NextEvent(s.finalizers[f], f) && e.f == f && Ready(s, e)
    ensures Advances(s, id, f, FinalizerStep(s, e))
  {
    hide OnTheWay, Advances, LookStep, CheckStep, ClaimStep, ObserveStep, OpenStep, AskStep, CommitStep, VerifyStep, RecordStep, ApplyStep;
    hide Stage, Timely;
    match e
    case Look(_) => LookAdvances(s, id, f);
    case Check(_, _) => CheckAdvances(s, id, f);
    case Claim(_) => ClaimAdvances(s, id, f);
    case Observe(_, _) => ObserveAdvances(s, id, f);
    case Open(_) => OpenAdvances(s, id, f);
    case Ask(_, _) => AskAdvances(s, id, f);
    case Commit(_) => CommitAdvances(s, id, f);
    case Verify(_, _) => VerifyAdvances(s, id, f);
    case Record(_) => RecordAdvances(s, id, f);
    case Apply(_) => ApplyAdvances(s, id, f);
  }

  lemma NextAdvances(s: World, id: nat, f: nat)
    requires Stage(s, id, Some(f)) && OnTheWay(s, id, Some(f)) && Timely(s, f)
    ensures var e := NextEvent(s.finalizers[f], f);
      Enabled(s, e) && Rerunning(e, id, Some(f)) && !Loses(s, e) && Advances(s, id, f, Step(s, e))
  {
    var e := NextEvent(s.finalizers[f], f);
    NextReady(s, id, f);
    NextStep(s, id, f, e);
    WorkingStep(s, e);
    hide Stage, OnTheWay, Advances, FinalizerStep, Ready, NextEvent, Loses, Step, Working, Enabled, Timely;
  }

  lemma WorkingStep(s: World, e: Event)
    requires Working(e) && e.f in s.finalizers && Ready(s, e)
    ensures Enabled(s, e) && Step(s, e) == FinalizerStep(s, e)
  {
  }

  lemma ApplyAdvances(s: World, id: nat, f: nat)
    requires Stage(s, id, Some(f)) && f in s.finalizers && Ready(s, Apply(f))
    ensures Advances(s, id, f, ApplyStep(s, f))
  {
    hide Targets;
  }

  /** Time passes, or finalizer `f` works and nothing fails. */
  predicate Smooth(e: Event, f: nat) {
    match e
    case Tick(_) => true
    case BeginFinalize(g, _, enabled) => g == f && enabled
    case Check(g, answered) => g == f && answered
    case Observe(g, answered) => g == f && answered
    case Verify(g, answered) => g == f && answered
    case Ask(g, response) => g == f && response.Replied?
    case _ => Working(e) && e.f == f && !e.Crash?
  }

  ghost predicate Applies(s: World, id: nat, who: Option<nat>, f: nat) {
    exists es, t, end ::
      Reruns(s, id, who, es, t, end) && (forall e :: e in es ==> Smooth(e, f)) && id in t.proposals && t.proposals[id].status.Applied?
  }

  lemma AppliesFirst(s: World, id: nat, who: Option<nat>, e: Event, f: nat)
    requires Enabled(s, e) && Rerunning(e, id, who) && Smooth(e, f)
    requires Applies(Step(s, e), id, Worker(Step(s, e), e, who), f)
    ensures Applies(s, id, who, f)
  {
    hide Step, Enabled, Rerunning, Worker, Smooth;
    var es, t, end :| Reruns(Step(s, e), id, Worker(Step(s, e), e, who), es, t, end)
      && (forall d :: d in es ==> Smooth(d, f)) && id in t.proposals && t.proposals[id].status.Applied?;
    assert ([e] + es)[1..] == es;
    assert Reruns(s, id, who, [e] + es, t, end);
  }

  lemma AppliedApplies(s: World, id: nat, who: Option<nat>, f: nat)
    requires id in s.proposals && s.proposals[id].status.Applied?
    ensures Applies(s, id, who, f)
  {
    assert Reruns(s, id, who, [], s, who);
  }

  /** Waiting for the lease of the open intent. */
  function Waiting(s: World, f: nat): Event
    requires !Timely(s, f)
  {
    Tick(s.intents[AppOf(s, f)].state.lease - s.now)
  }

  lemma WaitingHelps(s: World, id: nat, f: nat)
    requires Stage(s, id, Some(f)) && OnTheWay(s, id, Some(f)) && !Timely(s, f)
    ensures var e := Waiting(s, f); var t := Step(s, e);
      && Enabled(s, e) && Rerunning(e, id, Some(f)) && Smooth(e, f) && Worker(t, e, Some(f)) == Some(f)
      && Stage(t, id, Some(f)) && OnTheWay(t, id, Some(f)) && Timely(t, f) && t.finalizers == s.finalizers
  {
    var wait := Waiting(s, f);
    TickFollows(s, id, Some(f), wait.elapsed);
    assert Step(s, wait) == s.(now := s.now + wait.elapsed);
    hide Stage, OnTheWay, Step;
  }

  lemma NextSmooth(z: Finalizer, f: nat)
    ensures Smooth(NextEvent(z, f), f)
  {
  }

  lemma AdvancesStage(s: World, id: nat, f: nat)
    requires Stage(s, id, Some(f)) && OnTheWay(s, id, Some(f)) && Timely(s, f)
    ensures var e := NextEvent(s.finalizers[f], f);
      && Enabled(s, e) && Rerunning(e, id, Some(f)) && Smooth(e, f)
      && var t := Step(s, e); var end := Worker(t, e, Some(f));
        && Stage(t, id, end) && OnTheWay(t, id, end) && Advances(s, id, f, t) && (end == if f in t.finalizers then Some(f) else None)
  {
    var z := s.finalizers[f];
    NextAdvances(s, id, f);
    NextSmooth(z, f);
    StepFollows(s, id, Some(f), NextEvent(z, f));
    assert Working(NextEvent(z, f)) && NextEvent(z, f).f == f by { hide *; NextReady(s, id, f); }
    hide Stage, OnTheWay, Step, Enabled, Loses, Advances, NextEvent, Smooth, Timely;
  }

  /** Once on the way, a finalizer goes through to the end if it waits for the lease and nothing fails. */
  lemma {:induction false} GoesThrough(s: World, id: nat, f: nat)
    requires Stage(s, id, Some(f)) && OnTheWay(s, id, Some(f))
    ensures Applies(s, id, Some(f), f)
    decreases Left(s.finalizers[f]), if Timely(s, f) then 0 else 1
  {
    if !Timely(s, f) {
      var wait := Waiting(s, f);
      WaitingHelps(s, id, f);
      hide Stage, OnTheWay, Applies, Step, Left, Timely, Waiting, Enabled, Rerunning, Worker, Smooth;
      GoesThrough(Step(s, wait), id, f);
      AppliesFirst(s, id, Some(f), wait, f);
    } else {
      var e := NextEvent(s.finalizers[f], f);
      AdvancesStage(s, id, f);
      hide Stage, OnTheWay, Applies, Step, Left, Timely, Enabled, Rerunning, Worker, Smooth, NextEvent;
      if f in Step(s, e).finalizers { GoesThrough(Step(s, e), id, f); } else { AppliedApplies(Step(s, e), id, None, f); }
      AppliesFirst(s, id, Some(f), e, f);
    }
  }

  ghost predicate Finishable(s: World, id: nat) {
    id in s.proposals && CanFinish(ViewOf(s, s.proposals[id].app), id, s.proposals[id])
  }

  /** Once grace is over, the finalizer begins. */
  lemma BeginApplies(s: World, id: nat, f: nat)
    requires Finishable(s, id) && s.finalizers.Keys <= s.used && f !in s.used && Finalizable(s.proposals[id], s.now)
    ensures Applies(s, id, None, f)
  {
    var e := BeginFinalize(f, id, true);
    BeginFollows(s, id, f, true);
    assert Step(s, e) == FinalizeStep(s, f, id, true) && f in Step(s, e).finalizers;
    hide Stage, OnTheWay, Applies, Step, FinalizeStep, CanFinish;
    GoesThrough(Step(s, e), id, f);
    AppliesFirst(s, id, None, e, f);
  }

  lemma FinishableApplies(s: World, id: nat, f: nat)
    requires Finishable(s, id) && s.finalizers.Keys <= s.used && f !in s.used
    ensures Applies(s, id, None, f)
  {
    var p := s.proposals[id];
    assert Awaiting(p);
    var wait := if s.now < p.notBefore.value then p.notBefore.value - s.now else 0;
    TickIs(s, id, wait, f);
    hide Applies, Step, ViewOf, CanFinish, Enabled, Rerunning, Worker, Smooth;
    BeginApplies(Step(s, Tick(wait)), id, f);
    AppliesFirst(s, id, None, Tick(wait), f);
  }

  lemma TickIs(s: World, id: nat, elapsed: nat, f: nat)
    requires id in s.proposals
    ensures var e := Tick(elapsed); var t := Step(s, e);
      && Enabled(s, e) && Rerunning(e, id, None) && Smooth(e, f) && Worker(t, e, None) == None
      && t.now == s.now + elapsed && t.proposals == s.proposals && t.finalizers == s.finalizers && t.used == s.used
      && ViewOf(t, s.proposals[id].app) == ViewOf(s, s.proposals[id].app)
  {
  }

  /**
   * A proposal that is not yet applied can be brought there by a sequence of reruns, with whatever crashes and failures,
   * exactly if it is finishable as the tables and upstream stand; and then one finalizer does it, if nothing fails.
   */
  lemma FinishIff(s: World, id: nat, f: nat)
    requires id in s.proposals && !s.proposals[id].status.Applied? && s.finalizers.Keys <= s.used && f !in s.used
    ensures (exists es, t, end :: Reruns(s, id, None, es, t, end) && id in t.proposals && t.proposals[id].status.Applied?)
      <==> Finishable(s, id)
    ensures Finishable(s, id) ==> Applies(s, id, None, f)
  {
    if Finishable(s, id) {
      FinishableApplies(s, id, f);
      hide Finishable, Reruns, Smooth;
    }
    if es, t, end :| Reruns(s, id, None, es, t, end) && id in t.proposals && t.proposals[id].status.Applied? {
      AppliedNeeds(s, id, es, t, end);
      hide Finishable, Reruns, Applies;
    }
  }

  /** Reruns that apply a proposal start where it is finishable. */
  lemma AppliedNeeds(s: World, id: nat, es: seq<Event>, t: World, end: Option<nat>)
    requires id in s.proposals && !s.proposals[id].status.Applied? && s.finalizers.Keys <= s.used
    requires Reruns(s, id, None, es, t, end) && id in t.proposals && t.proposals[id].status.Applied?
    ensures Finishable(s, id)
  {
    hide Reruns, CanFinish, EverLoses;
    RerunsStay(s, id, None, es, t, end);
    AppliedOnTheWay(t, id, end);
  }

  lemma AppliedOnTheWay(t: World, id: nat, end: Option<nat>)
    requires Stage(t, id, end) && t.proposals[id].status.Applied?
    ensures OnTheWay(t, id, end)
  {
    hide InStep, Hope, CanFinish;
  }

  /** No sequence of reruns applies the proposal. */
  ghost predicate NeverApplied(s: World, id: nat) {
    forall es, t, end | Reruns(s, id, None, es, t, end) :: id in t.proposals && !t.proposals[id].status.Applied?
  }

  lemma Stuck(s: World, id: nat)
    requires id in s.proposals && !s.proposals[id].status.Applied? && s.finalizers.Keys <= s.used && !Finishable(s, id)
    ensures NeverApplied(s, id)
  {
    forall es, t, end | Reruns(s, id, None, es, t, end) ensures id in t.proposals && !t.proposals[id].status.Applied? {
      hide Finishable, Reruns, EverLoses;
      RerunsStay(s, id, None, es, t, end);
      if t.proposals[id].status.Applied? { AppliedNeeds(s, id, es, t, end); }
    }
  }

  /**
   * A finalizer on the way dies: reruns can still finish, unless it had committed its intent and not yet the row, or had
   * used up the attempts of another intent.
   */
  lemma CrashLosesIff(s: World, id: nat, f: nat)
    requires Stage(s, id, Some(f)) && OnTheWay(s, id, Some(f))
    ensures Finishable(Stop(s, f), id) <==> !LosesAt(s.finalizers[f].phase, Crash(f))
  {
    CrashFollows(s, id, f);
    hide CanFinish, Hope, ViewOf;
  }
}
