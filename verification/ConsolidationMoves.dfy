// What the steps of a finalizer may touch: itself, its log and its lineage rows,
// the status of its proposal, and, inside `delete_memory`, rows it deletes, the
// open intent of its application and the memory upstream.
module ConsolidationMoves {
  import opened Consolidation
  import opened Wrappers

  /** The steps on the way through a target that leave the proposal alone. */
  predicate Moving(e: Event) {
    e.Check? || e.Claim? || e.Observe? || e.Open? || e.Ask? || e.Commit? || e.Record? || e.Crash?
  }

  /** The steps that may leave a status. */
  predicate Deciding(e: Event) { e.Look? || e.Verify? || e.Apply? }

  /** Finalizer `f` stops, or moves to another phase or the next target; the others stay. */
  ghost predicate OneMoved(before: map<nat, Finalizer>, after: map<nat, Finalizer>, f: nat) {
    f in before && (after == before - {f}
                    || (f in after && after == before[f := before[f].(at := after[f].at, phase := after[f].phase)]))
  }

  /** What no finalizer touches. */
  ghost predicate Aside(s: World, t: World) {
    && t.now == s.now && t.shadows == s.shadows && t.replacing == s.replacing && t.used == s.used
    && t.retired == s.retired && t.tick == s.tick
  }

  ghost predicate Moved(s: World, t: World, f: nat) {
    && t.proposals == s.proposals && Aside(s, t)
    && OneMoved(s.finalizers, t.finalizers, f) && (t.rows == s.rows || exists ms :: t.rows == Bury(s.rows, ms))
  }

  ghost predicate Decided(s: World, t: World, f: nat, id: nat) {
    && t.rows == s.rows && t.upstream == s.upstream && t.intents == s.intents && t.lineage == s.lineage && Aside(s, t)
    && OneMoved(s.finalizers, t.finalizers, f) && id in s.proposals && id in t.proposals
    && t.proposals == s.proposals[id := s.proposals[id].(status := t.proposals[id].status)]
    && (t.proposals[id].status == s.proposals[id].status || t.proposals[id].status.Failed? || t.proposals[id].status.Applied?)
  }

  lemma StopMoves(s: World, f: nat)
    requires f in s.finalizers
    ensures Moved(s, Stop(s, f), f)
  {
  }

  lemma MoveMoves(s: World, f: nat, phase: Phase)
    requires f in s.finalizers
    ensures Moved(s, Move(s, f, phase), f)
  {
  }

  lemma MovedMore(s: World, t: World, f: nat, u: World)
    requires Moved(s, t, f)
    requires u == t.(upstream := u.upstream, intents := u.intents, lineage := u.lineage, log := u.log)
    ensures Moved(s, u, f)
  {
  }

  lemma MovedBurying(s: World, t: World, f: nat, ms: set<string>, u: World)
    requires Moved(s, t, f) && t.rows == s.rows && u == t.(rows := Bury(s.rows, ms), intents := u.intents)
    ensures Moved(s, u, f)
  {
  }

  lemma CheckMoves(s: World, f: nat, answered: bool)
    requires InPhase(s, f, Checking)
    ensures Moved(s, CheckStep(s, f, answered), f)
  {
    StopMoves(s, f);
    MoveMoves(s, f, Claiming);
    hide Moved, UpstreamMatches, CanonicalMatches, Stop, Move;
    if CheckStep(s, f, answered) != Stop(s, f) { MovedMore(s, Move(s, f, Claiming), f, CheckStep(s, f, answered)); }
  }

  lemma ClaimMoves(s: World, f: nat)
    requires InPhase(s, f, Claiming)
    ensures Moved(s, ClaimStep(s, f), f)
  {
    var app, t := AppOf(s, f), ClaimStep(s, f);
    StopMoves(s, f);
    MoveMoves(s, f, Opening);
    hide Moved, Stop, Move;
    if app in s.intents {
      var x := s.intents[app];
      var claimed := x.(state := Running(s.now + LEASE), attempts := x.attempts + 1);
      MoveMoves(s, f, Observing(claimed));
      if x.attempts >= MAX_ATTEMPTS {
        MovedMore(s, Stop(s, f), f, Stop(s, f).(intents := s.intents[app := x.(state := Spent)]));
      } else {
        MovedMore(s, Move(s, f, Observing(claimed)), f, Move(s, f, Observing(claimed)).(intents := s.intents[app := claimed]));
      }
    }
  }

  lemma ObserveMoves(s: World, f: nat, answered: bool)
    requires Enabled(s, Observe(f, answered))
    ensures Moved(s, ObserveStep(s, f, answered), f)
  {
    var app := AppOf(s, f);
    StopMoves(s, f);
    MoveMoves(s, f, Opening);
    StopRows(s, f);
    MoveRows(s, f, Opening);
    hide Moved, Vanished, Remaining, Settles, Bury, StillClaimed, MarkUnresolved, Stop, Move;
    if app in s.intents {
      var x := s.intents[app];
      var gone := Vanished(x.task, s.upstream);
      var t, left := s.(rows := Bury(s.rows, gone)), MarkUnresolved(x).(task := Remaining(x.task, s.upstream));
      MovedMore(s, Stop(s, f), f, Stop(s, f).(intents := s.intents[app := MarkUnresolved(x)]));
      MovedBurying(s, Move(s, f, Opening), f, gone, Move(s, f, Opening).(rows := t.rows, intents := s.intents - {app}));
      MovedBurying(s, Stop(s, f), f, gone, Stop(s, f).(rows := t.rows, intents := s.intents[app := left]));
      BuriedFirst(s, f, t.rows, Opening);
    }
  }

  lemma StopRows(s: World, f: nat)
    ensures Stop(s, f).rows == s.rows
  {
  }

  lemma MoveRows(s: World, f: nat, phase: Phase)
    requires f in s.finalizers
    ensures Move(s, f, phase).rows == s.rows
  {
  }

  lemma BuriedFirst(s: World, f: nat, rows: Rows, phase: Phase)
    requires f in s.finalizers
    ensures Stop(s.(rows := rows), f) == Stop(s, f).(rows := rows)
    ensures Move(s.(rows := rows), f, phase) == Move(s, f, phase).(rows := rows)
  {
  }

  lemma OpenMoves(s: World, f: nat)
    requires InPhase(s, f, Opening)
    ensures Moved(s, OpenStep(s, f), f)
  {
    var m := TargetOf(s, f);
    StopMoves(s, f);
    hide Moved, Stop, Move;
    if LiveIn(s.rows, AppOf(s, f), m) {
      MoveMoves(s, f, Asking(s.rows[m]));
      if OpenStep(s, f) != Stop(s, f) { MovedMore(s, Move(s, f, Asking(s.rows[m])), f, OpenStep(s, f)); }
    }
  }

  lemma AskMoves(s: World, f: nat, response: Response)
    requires Enabled(s, Ask(f, response))
    ensures Moved(s, AskStep(s, f, response), f)
  {
    var snapshot := s.finalizers[f].phase.snapshot;
    var called := s.log + [Called(f, s.finalizers[f].proposal, TargetOf(s, f))];
    StopMoves(s, f);
    LoggedFirst(s, f, called, Committing(snapshot));
    LoggedFirst(s, f, called, Missing(snapshot));
    hide Moved, Mine, MarkUnresolved, Stop, Move;
    if !response.Replied? {
      MovedMore(s, Stop(s, f), f, AskStep(s, f, response));
    } else {
      var phase := if TargetOf(s, f) in s.upstream then Committing(snapshot) else Missing(snapshot);
      MoveMoves(s, f, phase);
      MovedMore(s, Move(s, f, phase), f, AskStep(s, f, response));
    }
  }

  lemma LoggedFirst(s: World, f: nat, log: seq<Entry>, phase: Phase)
    requires f in s.finalizers
    ensures Stop(s.(log := log), f) == Stop(s, f).(log := log)
    ensures Move(s.(log := log), f, phase) == Move(s, f, phase).(log := log)
  {
  }

  lemma CommitMoves(s: World, f: nat)
    requires Enabled(s, Commit(f))
    ensures Moved(s, CommitStep(s, f), f)
  {
    var app, m := AppOf(s, f), TargetOf(s, f);
    StopMoves(s, f);
    StopRows(s, f);
    MoveMoves(s, f, Verifying);
    MoveRows(s, f, Verifying);
    hide Moved, Mine, SameRow, Bury, MarkUnresolved, Stop, Move;
    if !SameRow(s.rows, m, s.finalizers[f].phase.snapshot) {
      MovedMore(s, Stop(s, f), f, MarkUnknown(Stop(s, f), app, f, m));
    } else {
      MovedBurying(s, Stop(s, f), f, {m}, Stop(s, f).(rows := Bury(s.rows, {m}), intents := s.intents - {app}));
      MovedBurying(s, Move(s, f, Verifying), f, {m}, Move(s, f, Verifying).(rows := Bury(s.rows, {m}), intents := s.intents - {app}));
    }
  }

  lemma RecordMoves(s: World, f: nat)
    requires InPhase(s, f, Recording)
    ensures Moved(s, RecordStep(s, f), f)
  {
  }

  lemma MovingMoves(s: World, e: Event)
    requires Enabled(s, e) && Moving(e)
    ensures Moved(s, Step(s, e), e.f)
  {
    hide Moved, CheckStep, ClaimStep, ObserveStep, OpenStep, AskStep, CommitStep, RecordStep, Stop;
    match e
    case Check(f, answered) => CheckMoves(s, f, answered);
    case Claim(f) => ClaimMoves(s, f);
    case Observe(f, answered) => ObserveMoves(s, f, answered);
    case Open(f) => OpenMoves(s, f);
    case Ask(f, response) => AskMoves(s, f, response);
    case Commit(f) => CommitMoves(s, f);
    case Record(f) => RecordMoves(s, f);
    case Crash(f) => StopMoves(s, f);
  }

  lemma SelfPut(s: World, id: nat)
    requires id in s.proposals
    ensures s.proposals[id := s.proposals[id]] == s.proposals
    ensures s.proposals[id].(status := s.proposals[id].status) == s.proposals[id]
  {
  }

  lemma MovedDecides(s: World, t: World, f: nat, id: nat, u: World)
    requires Moved(s, t, f) && id in s.proposals && u == t.(log := u.log)
    requires t.rows == s.rows && t.upstream == s.upstream && t.intents == s.intents && t.lineage == s.lineage
    ensures Decided(s, u, f, id)
  {
    SelfPut(s, id);
  }

  lemma StatusDecides(s: World, f: nat, id: nat, status: Status)
    requires f in s.finalizers && id in s.proposals && (status.Failed? || status.Applied?)
    ensures Decided(s, Stop(s, f).(proposals := s.proposals[id := s.proposals[id].(status := status)]), f, id)
  {
  }

  lemma PlainMoves(s: World, f: nat, id: nat, phase: Phase)
    requires f in s.finalizers && id in s.proposals
    ensures Decided(s, Stop(s, f), f, id) && Decided(s, Move(s, f, phase), f, id)
  {
    SelfPut(s, id);
  }

  lemma LookDecides(s: World, f: nat)
    requires InPhase(s, f, Looking)
    ensures Decided(s, LookStep(s, f), f, s.finalizers[f].proposal)
  {
    var z, id := s.finalizers[f], s.finalizers[f].proposal;
    SelfPut(s, id);
    StatusDecides(s, f, id, Failed);
    PlainMoves(s, f, id, Verifying);
    MoveMoves(s, f, Checking);
    MoveRest(s, f, Checking);
    NextDecides(s, f, id);
    hide Decided, Moved, TargetFits, RetiredHere, Stop, Move;
    var t := LookStep(s, f);
    if t == Move(s, f, Checking).(log := t.log) { MovedDecides(s, Move(s, f, Checking), f, id, t); }
  }

  lemma NextDecides(s: World, f: nat, id: nat)
    requires f in s.finalizers && id in s.proposals
    ensures Decided(s, s.(finalizers := s.finalizers[f := s.finalizers[f].(at := s.finalizers[f].at + 1)]), f, id)
  {
    SelfPut(s, id);
  }

  lemma MoveRest(s: World, f: nat, phase: Phase)
    requires f in s.finalizers
    ensures Move(s, f, phase) == s.(finalizers := Move(s, f, phase).finalizers)
  {
  }

  lemma VerifyDecides(s: World, f: nat, answered: bool)
    requires InPhase(s, f, Verifying)
    ensures Decided(s, VerifyStep(s, f, answered), f, s.finalizers[f].proposal)
  {
    var id := s.finalizers[f].proposal;
    StatusDecides(s, f, id, Failed);
    PlainMoves(s, f, id, Recording);
    MoveMoves(s, f, Recording);
    MoveRest(s, f, Recording);
    hide Decided, Moved, Stop, Move;
    var t := VerifyStep(s, f, answered);
    if t == Move(s, f, Recording).(log := t.log) { MovedDecides(s, Move(s, f, Recording), f, id, t); }
  }

  lemma ApplyDecides(s: World, f: nat)
    requires Enabled(s, Apply(f))
    ensures Decided(s, ApplyStep(s, f), f, s.finalizers[f].proposal)
  {
    StatusDecides(s, f, s.finalizers[f].proposal, Applied);
    hide Decided, Stop;
  }

  lemma DecidingDecides(s: World, e: Event)
    requires Enabled(s, e) && Deciding(e)
    ensures Decided(s, Step(s, e), e.f, s.finalizers[e.f].proposal)
  {
    hide Decided, LookStep, VerifyStep, ApplyStep;
    match e
    case Look(f) => LookDecides(s, f);
    case Verify(f, answered) => VerifyDecides(s, f, answered);
    case Apply(f) => ApplyDecides(s, f);
  }
}
