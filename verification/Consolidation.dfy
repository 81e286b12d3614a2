// The consolidation lifecycle of one project's memories as a state machine:
// proposals are approved, their sources exported and retired under a leased
// attempt, and then rolled back or finally deleted.  One event is one section
// under the project lock, or one upstream call; events of different actors
// interleave freely, and other services change memories at any time.
module Consolidation {
  import opened Wrappers

  datatype Kind = ExactDuplicate | NearDuplicate | Contradiction | Retention
  datatype RowState = Active | Shadowed | Merged | Superseded
  datatype Row = Row(app: string, live: bool, pinned: bool, hash: string, state: RowState, shadowedBy: Option<nat>)

  datatype Status =
    Pending | ReviewRequired | Approved | Exporting | ShadowedStatus | Stale | Failed | RolledBack | Applied

  datatype Proposal = Proposal(
    app: string, kind: Kind, status: Status, sources: seq<string>, canonical: Option<string>,
    canonicalHash: Option<string>, hashes: map<string, string>,
    attempt: Option<nat>, expires: Option<int>, notBefore: Option<int>, exportId: Option<string>)

  type Rows = map<string, Row>
  type Hashes = map<string, string>

  /** A `shadow_approved` call under way, with the hashes it read at its start. */
  datatype Shadow = Shadow(proposal: nat, hashes: Hashes)

  /** A memory as upstream holds it: its scope, its pin and the hash of its content. */
  datatype Copy = Copy(app: string, pinned: bool, hash: string)

  /** What an open intent is about: deletes still to be confirmed, or a rewrite, whose recovery settles it or not. */
  datatype Task = Deleting(memories: set<string>) | Rewriting(settles: bool)

  /** ACTIVE until its lease ends, UNKNOWN or PENDING, or EXHAUSTED. */
  datatype IntentState = Running(lease: int) | Unresolved | Spent

  /** An open mutation intent; `maker` is the finalizer and the target it deletes, if a finalizer made it. */
  datatype Intent = Intent(task: Task, state: IntentState, attempts: nat, maker: Option<(nat, string)>)

  const MAX_ATTEMPTS := 3
  const LEASE := 300

  /** Where a finalizer is with a target; from Claiming to Missing it is inside `delete_memory`. */
  datatype Phase =
    | Looking                       // before its lineage row and its projection are looked at
    | Checking                      // before upstream is asked whether source and canonical are as expected
    | Claiming                      // before the open intent of the application is claimed, if there is one
    | Observing(claimed: Intent)    // before upstream is asked what became of that intent
    | Opening                       // before the own intent is committed
    | Asking(snapshot: Row)         // before upstream is asked to delete
    | Committing(snapshot: Row)     // upstream has deleted it; the row is not yet
    | Missing(snapshot: Row)        // upstream did not have it; the row is not yet deleted
    | Verifying                     // before upstream is asked whether it is gone
    | Recording                     // before the lineage row

  /** A `finalize_shadowed` call under way, at target number `at`. */
  datatype Finalizer = Finalizer(proposal: nat, targets: seq<string>, hashes: Hashes, at: nat, phase: Phase)

  /** What finalizers did, in order; `row` and `now` are what the checks saw. */
  datatype Entry =
    | Began(f: nat, proposal: nat, notBefore: int, now: int, exportId: string)
    | Looked(f: nat, proposal: nat, memory: string, row: Row, expected: string)
    | Matched(f: nat, proposal: nat, memory: string)   // upstream source and canonical are as expected
    | Called(f: nat, proposal: nat, memory: string)    // upstream was asked to delete
    | Verified(f: nat, proposal: nat, memory: string)  // upstream answered that the memory does not exist
    | Recorded(proposal: nat, memory: string)          // the lineage row

  datatype World = World(
    rows: Rows, proposals: map<nat, Proposal>, now: int,
    upstream: map<string, Copy>,          // the memories that exist upstream
    intents: map<string, Intent>,         // the open intent of each application
    shadows: map<nat, Shadow>,            // by attempt id
    replacing: map<nat, (nat, Hashes)>,   // approvals waiting for their replacement memory
    finalizers: map<nat, Finalizer>,
    lineage: seq<(nat, string)>,          // the lineage table: proposal and source memory
    log: seq<Entry>,
    used: set<nat>,                       // ids given to attempts and finalizers so far
    retired: map<string, nat>, tick: nat) // when each memory was last retired, on a counter of retirements

  function Start(now: int): World { World(map[], map[], now, map[], map[], map[], map[], map[], [], [], {}, map[], 0) }

  predicate Distinct(s: seq<string>) { forall i, j :: 0 <= i < j < |s| ==> s[i] != s[j] }

  predicate Semantic(kind: Kind) { kind.NearDuplicate? || kind.Contradiction? }

  predicate SourceFits(row: Row, app: string, hash: string) {
    row.app == app && row.live && !row.pinned && row.hash == hash && row.state.Active?
  }

  /** `_proposal_sources` finds every source in the required state, unpinned and with the expected hash. */
  predicate SourcesFit(rows: Rows, p: Proposal, hashes: Hashes) {
    && hashes.Keys == (set m | m in p.sources)
    && (forall m :: m in p.sources ==> m in rows && SourceFits(rows[m], p.app, hashes[m]))
    && (p.kind.ExactDuplicate? ==> p.canonical.Some? && p.canonical.value in p.sources)
  }

  function NewProposal(app: string, kind: Kind, sources: seq<string>, canonical: Option<string>, review: bool): Proposal {
    Proposal(app, kind, if review then ReviewRequired else Pending, sources, canonical, None, map[], None, None, None, None)
  }

  function RetiredState(kind: Kind): RowState {
    match kind
    case ExactDuplicate => Merged
    case NearDuplicate => Merged
    case Contradiction => Superseded
    case Retention => Shadowed
  }

  /** The sources other than the canonical, in order. */
  function Targets(p: Proposal): seq<string> { Without(p.sources, p.canonical) }

  function Without(s: seq<string>, c: Option<string>): (r: seq<string>)
    ensures forall m :: m in r <==> m in s && c != Some(m)
  {
    if s == [] then [] else
    (if c == Some(s[0]) then [] else [s[0]]) + Without(s[1..], c)
  }

  function Retire(rows: Rows, id: nat, p: Proposal): Rows {
    map m | m in rows ::
      if m in Targets(p) then rows[m].(state := RetiredState(p.kind), shadowedBy := Some(id)) else rows[m]
  }

  function ClearAttempt(p: Proposal): Proposal { p.(attempt := None, expires := None) }

  // ---------------------------------------------------------------- approval

  datatype Approval = Approval(expected: Status, hashes: Hashes, canonical: Option<string>)

  /** The checks of `approve_proposal` that raise; `policy` is whether the policy lets this proposal be approved. */
  predicate MayApprove(p: Proposal, a: Approval, policy: bool) {
    && p.status == a.expected && policy
    && (if Semantic(p.kind) then a.expected.ReviewRequired? && a.canonical.Some?
        else a.canonical.Some? ==> a.canonical == p.canonical)
  }

  function Approve(p: Proposal, hashes: Hashes, canonical: Option<string>, replacementHash: Option<string>): Proposal {
    var chosen := if Semantic(p.kind) then canonical else p.canonical;
    p.(hashes := hashes, canonical := chosen,
       canonicalHash := if chosen.None? then p.canonicalHash
                        else if replacementHash.Some? then replacementHash
                        else if chosen.value in hashes then Some(hashes[chosen.value]) else None,
       status := Approved)
  }

  function Decide(rows: Rows, p: Proposal, a: Approval, policy: bool): Proposal {
    if !MayApprove(p, a, policy) then p
    else if !SourcesFit(rows, p, a.hashes) then p.(status := Stale)
    else if a.canonical.Some? && a.canonical.value !in p.sources then p
    else Approve(p, a.hashes, a.canonical, None)
  }

  function ApproveStep(s: World, id: nat, a: Approval, policy: bool): World
    requires id in s.proposals
  {
    s.(proposals := s.proposals[id := Decide(s.rows, s.proposals[id], a, policy)])
  }

  /** The first section of an approval that asks for a replacement memory. */
  function ReplaceStep(s: World, r: nat, id: nat, hashes: Hashes, policy: bool): World
    requires id in s.proposals
  {
    var p := s.proposals[id];
    var open, fits := policy && Semantic(p.kind) && p.status.ReviewRequired?, SourcesFit(s.rows, p, hashes);
    s.(proposals := s.proposals[id := if open && !fits then p.(status := Stale) else p],
       replacing := if open && fits then s.replacing[r := (id, hashes)] else s.replacing)
  }

  /** Its last section, after the replacement was added; the status is not looked at again. */
  function ReplacedStep(s: World, r: nat, memory: string, hash: string): World
    requires r in s.replacing && s.replacing[r].0 in s.proposals
  {
    var (id, hashes) := s.replacing[r];
    var p := s.proposals[id];
    var q := if SourcesFit(s.rows, p, hashes) then Approve(p, hashes, Some(memory), Some(hash)) else p.(status := Stale);
    s.(replacing := s.replacing - {r}, proposals := s.proposals[id := q])
  }

  // ---------------------------------------------------------------- shadowing

  predicate LeaseLive(p: Proposal, now: int) {
    p.status.Exporting? && p.attempt.Some? && p.expires.Some? && now < p.expires.value
  }

  /** The first section of `shadow_approved`; `ready` is whether bridge and policy allow it. */
  function ShadowStep(s: World, attempt: nat, id: nat, lease: nat, ready: bool): World
    requires id in s.proposals
  {
    var p := s.proposals[id];
    var open := (p.status.Approved? || p.status.Exporting?) && !LeaseLive(p, s.now) && ready;
    var fits := SourcesFit(s.rows, p, p.hashes);
    var q := if fits then p.(attempt := Some(attempt), expires := Some(s.now + lease), status := Exporting) else p.(status := Stale);
    s.(proposals := s.proposals[id := if open then q else p],
       shadows := if open && fits then s.shadows[attempt := Shadow(id, p.hashes)] else s.shadows,
       used := if open && fits then s.used + {attempt} else s.used)
  }

  predicate Owns(p: Proposal, attempt: nat) { p.status.Exporting? && p.attempt == Some(attempt) }

  /** The section after a mismatch upstream before the export. */
  function MismatchStep(s: World, attempt: nat): World
    requires attempt in s.shadows && s.shadows[attempt].proposal in s.proposals
  {
    var id := s.shadows[attempt].proposal;
    var p := s.proposals[id];
    var t := s.(shadows := s.shadows - {attempt});
    if !Owns(p, attempt) then t else t.(proposals := s.proposals[id := ClearAttempt(p).(status := Stale)])
  }

  datatype Export = Export(id: string, succeeded: bool, complete: bool)

  /** The last section of `shadow_approved`, after the export and the second look upstream. */
  function ShadowedStep(s: World, attempt: nat, job: Export, upstreamMatches: bool, grace: nat): World
    requires attempt in s.shadows && s.shadows[attempt].proposal in s.proposals
  {
    var Shadow(id, hashes) := s.shadows[attempt];
    var p := s.proposals[id];
    var t := s.(shadows := s.shadows - {attempt});
    var exported := ClearAttempt(p).(exportId := Some(job.id));
    if !Owns(p, attempt) then t
    else if !(job.succeeded && job.complete) then
      t.(proposals := s.proposals[id := exported.(status := if job.succeeded then Stale else Failed)])
    else if !upstreamMatches || !SourcesFit(s.rows, p, hashes) then
      t.(proposals := s.proposals[id := exported.(status := Stale)])
    else
      t.(rows := Retire(s.rows, id, p),
         proposals := s.proposals[id := exported.(notBefore := Some(s.now + grace), status := ShadowedStatus)],
         retired := s.retired + (map m | m in Targets(p) :: s.tick), tick := s.tick + 1)
  }

  // ---------------------------------------------------------------- rollback

  predicate Restores(row: Row, id: nat, p: Proposal) {
    row.app == p.app && row.live && !row.state.Active? && row.shadowedBy == Some(id)
  }

  function RollbackRows(rows: Rows, id: nat, p: Proposal): Rows {
    map m | m in rows ::
      if m in p.sources && Restores(rows[m], id, p) then rows[m].(state := Active, shadowedBy := None) else rows[m]
  }

  function RollbackStep(s: World, id: nat): World
    requires id in s.proposals
  {
    var p := s.proposals[id];
    if !p.status.ShadowedStatus? then s
    else s.(rows := RollbackRows(s.rows, id, p),
            proposals := s.proposals[id := p.(notBefore := None, status := RolledBack)])
  }

  // ---------------------------------------------------------------- other services

  /** `upsert_memory`: a memory that comes back or changes its content is active again. */
  function UpsertStep(s: World, m: string, app: string, hash: string, pinned: bool): World {
    var row :=
      if m !in s.rows then Row(app, true, pinned, hash, Active, None)
      else if !s.rows[m].live || s.rows[m].hash != hash then Row(app, true, pinned, hash, Active, None)
      else s.rows[m].(app := app, pinned := pinned);
    s.(rows := s.rows[m := row])
  }

  function DeleteStep(s: World, m: string): World {
    s.(rows := if m in s.rows then s.rows[m := s.rows[m].(live := false)] else s.rows)
  }

  function UpstreamStep(s: World, m: string, copy: Option<Copy>): World {
    s.(upstream := if copy.Some? then s.upstream[m := copy.value] else s.upstream - {m})
  }

  function ElsewhereStep(s: World, app: string, intent: Option<Intent>): World {
    s.(intents := if intent.Some? then s.intents[app := intent.value] else s.intents - {app})
  }

  // ---------------------------------------------------------------- finalizing

  function Stop(s: World, f: nat): World { s.(finalizers := s.finalizers - {f}) }

  function FailProposal(s: World, f: nat, id: nat): World
    requires id in s.proposals
  {
    Stop(s, f).(proposals := s.proposals[id := s.proposals[id].(status := Failed)])
  }

  predicate Finalizable(p: Proposal, now: int) {
    p.status.ShadowedStatus? && p.notBefore.Some? && now >= p.notBefore.value && p.exportId.Some?
  }

  /** The checks before the loop; `enabled` is whether hard deletes are on and the bridge is ready. */
  function FinalizeStep(s: World, f: nat, id: nat, enabled: bool): World
    requires id in s.proposals
  {
    var p := s.proposals[id];
    if !Finalizable(p, s.now) || !enabled then s
    else s.(finalizers := s.finalizers[f := Finalizer(id, Targets(p), p.hashes, 0, Looking)],
            used := s.used + {f}, log := s.log + [Began(f, id, p.notBefore.value, s.now, p.exportId.value)])
  }

  predicate RetiredHere(row: Row, id: nat) { !row.state.Active? && row.shadowedBy == Some(id) }

  /** A live target must still be retired by this proposal, unchanged and unpinned. */
  predicate TargetFits(row: Row, id: nat, expected: string) {
    RetiredHere(row, id) && row.hash == expected && !row.pinned
  }

  function Move(s: World, f: nat, phase: Phase): World
    requires f in s.finalizers
  {
    s.(finalizers := s.finalizers[f := s.finalizers[f].(phase := phase)])
  }

  /** The finalizer is at a target. */
  predicate Busy(s: World, f: nat) {
    f in s.finalizers && s.finalizers[f].proposal in s.proposals && s.finalizers[f].at < |s.finalizers[f].targets|
  }

  function TargetOf(s: World, f: nat): string
    requires Busy(s, f)
  {
    s.finalizers[f].targets[s.finalizers[f].at]
  }

  function AppOf(s: World, f: nat): string
    requires Busy(s, f)
  {
    s.proposals[s.finalizers[f].proposal].app
  }

  /** Look for the lineage row, and then at the projection, of the next target. */
  function LookStep(s: World, f: nat): World
    requires Busy(s, f)
  {
    var z := s.finalizers[f];
    var m, p := z.targets[z.at], s.proposals[z.proposal];
    if (z.proposal, m) in s.lineage then s.(finalizers := s.finalizers[f := z.(at := z.at + 1)])
    else if m !in s.rows || s.rows[m].app != p.app then FailProposal(s, f, z.proposal)
    else if !s.rows[m].live then Move(s, f, Verifying)
    else if !RetiredHere(s.rows[m], z.proposal) then FailProposal(s, f, z.proposal)
    else if m !in z.hashes then Stop(s, f)
    else if !TargetFits(s.rows[m], z.proposal, z.hashes[m]) then FailProposal(s, f, z.proposal)
    else Move(s, f, Checking).(log := s.log + [Looked(f, z.proposal, m, s.rows[m], z.hashes[m])])
  }

  /** `_upstream_sources_match`, for one memory. */
  predicate UpstreamMatches(upstream: map<string, Copy>, app: string, m: string, hash: string) {
    m in upstream && upstream[m] == Copy(app, false, hash)
  }

  /** `_upstream_canonical_matches`. */
  predicate CanonicalMatches(upstream: map<string, Copy>, p: Proposal, hashes: Hashes) {
    p.canonical.None? ||
    var c := p.canonical.value;
    if c in hashes then UpstreamMatches(upstream, p.app, c, hashes[c])
    else p.canonicalHash.Some? && UpstreamMatches(upstream, p.app, c, p.canonicalHash.value)
  }

  /** Upstream source and canonical are as expected, or the call raises; so it does if upstream does not answer. */
  function CheckStep(s: World, f: nat, answered: bool): World
    requires Busy(s, f)
  {
    var z, m := s.finalizers[f], TargetOf(s, f);
    if answered && m in z.hashes && UpstreamMatches(s.upstream, AppOf(s, f), m, z.hashes[m])
      && CanonicalMatches(s.upstream, s.proposals[z.proposal], z.hashes)
    then Move(s, f, Claiming).(log := s.log + [Matched(f, z.proposal, m)])
    else Stop(s, f)
  }

  // ---------------------------------------------------------------- deleting a target

  /** `mark_unresolved`. */
  function MarkUnresolved(x: Intent): Intent { x.(state := if x.attempts >= MAX_ATTEMPTS then Spent else Unresolved) }

  /** `recover_pending_mutations` up to the commit of its claim; it raises if the intent cannot be claimed. */
  function ClaimStep(s: World, f: nat): World
    requires Busy(s, f)
  {
    var app := AppOf(s, f);
    if app !in s.intents then Move(s, f, Opening)
    else
      var x := s.intents[app];
      if x.state.Spent? || (x.state.Running? && s.now < x.state.lease) then Stop(s, f)
      else if x.attempts >= MAX_ATTEMPTS then Stop(s, f).(intents := s.intents[app := x.(state := Spent)])
      else
        var claimed := x.(state := Running(s.now + LEASE), attempts := x.attempts + 1);
        Move(s, f, Observing(claimed)).(intents := s.intents[app := claimed])
  }

  /** Whether upstream has done all that the intent is about. */
  predicate Settles(task: Task, upstream: map<string, Copy>) {
    match task
    case Deleting(memories) => memories !! upstream.Keys
    case Rewriting(settles) => settles
  }

  /** The memories that recovery finds to be gone. */
  function Vanished(task: Task, upstream: map<string, Copy>): set<string> {
    if task.Deleting? then task.memories - upstream.Keys else {}
  }

  function Remaining(task: Task, upstream: map<string, Copy>): Task {
    if task.Deleting? then Deleting(task.memories * upstream.Keys) else task
  }

  function Bury(rows: Rows, ms: set<string>): Rows {
    map m | m in rows :: if m in ms then rows[m].(live := false) else rows[m]
  }

  /** The fence of a claim. */
  predicate StillClaimed(s: World, app: string, claimed: Intent) {
    && app in s.intents && s.intents[app].state.Running?
    && s.intents[app].(state := claimed.state) == claimed
  }

  /** The rest of `recover_pending_mutations`: it raises unless the application is left without an open intent. */
  function ObserveStep(s: World, f: nat, answered: bool): World
    requires Busy(s, f) && s.finalizers[f].phase.Observing?
  {
    var app := AppOf(s, f);
    if app !in s.intents then Move(s, f, Opening)
    else if !StillClaimed(s, app, s.finalizers[f].phase.claimed) then Stop(s, f)
    else
      var x := s.intents[app];
      if !answered then Stop(s, f).(intents := s.intents[app := MarkUnresolved(x)])
      else
        var t := s.(rows := Bury(s.rows, Vanished(x.task, s.upstream)));
        if Settles(x.task, s.upstream) then Move(t, f, Opening).(intents := s.intents - {app})
        else Stop(t, f).(intents := s.intents[app := MarkUnresolved(x).(task := Remaining(x.task, s.upstream))])
  }

  predicate LiveIn(rows: Rows, app: string, m: string) { m in rows && rows[m].live && rows[m].app == app }

  /** `delete_memory` from the last check of the recovery to the commit of its intent. */
  function OpenStep(s: World, f: nat): World
    requires Busy(s, f)
  {
    var app, m := AppOf(s, f), TargetOf(s, f);
    if app in s.intents || !LiveIn(s.rows, app, m) then Stop(s, f)
    else
      Move(s, f, Asking(s.rows[m])).(intents := s.intents[app := Intent(Deleting({m}), Running(s.now + LEASE), 1, Some((f, m)))])
  }

  /** How the upstream call ends: with an answer, with a definite error, or with neither, applied or not. */
  datatype Response = Replied | Refused | Lost(applied: bool)

  /** The fence of the own intent. */
  predicate Mine(s: World, app: string, f: nat, m: string) {
    app in s.intents && s.intents[app].state.Running? && s.intents[app].attempts == 1 && s.intents[app].maker == Some((f, m))
  }

  /** `_record_intent_failure`, for an outcome that is not known. */
  function MarkUnknown(s: World, app: string, f: nat, m: string): World {
    if Mine(s, app, f, m) then s.(intents := s.intents[app := MarkUnresolved(s.intents[app])]) else s
  }

  /** Upstream is asked to delete; unless it answers, the call raises once the failure is recorded. */
  function AskStep(s: World, f: nat, response: Response): World
    requires Busy(s, f) && s.finalizers[f].phase.Asking?
  {
    var z, app, m := s.finalizers[f], AppOf(s, f), TargetOf(s, f);
    var t := s.(log := s.log + [Called(f, z.proposal, m)]);
    match response
    case Replied =>
      if m in s.upstream then Move(t, f, Committing(z.phase.snapshot)).(upstream := s.upstream - {m})
      else Move(t, f, Missing(z.phase.snapshot))
    case Refused => if Mine(s, app, f, m) then Stop(t, f).(intents := s.intents - {app}) else Stop(t, f)
    case Lost(applied) => MarkUnknown(Stop(t, f).(upstream := if applied then s.upstream - {m} else s.upstream), app, f, m)
  }

  /** The row is as it was when the intent was committed. */
  predicate SameRow(rows: Rows, m: string, snapshot: Row) { m in rows && rows[m].live && rows[m] == snapshot }

  /** The last section of `delete_memory`; if the memory was missing upstream it raises after that, too. */
  function CommitStep(s: World, f: nat): World
    requires Busy(s, f) && (s.finalizers[f].phase.Committing? || s.finalizers[f].phase.Missing?)
  {
    var phase, app, m := s.finalizers[f].phase, AppOf(s, f), TargetOf(s, f);
    if !Mine(s, app, f, m) then Stop(s, f)
    else if !SameRow(s.rows, m, phase.snapshot) then
      if phase.Committing? then MarkUnknown(Stop(s, f), app, f, m) else Stop(s, f)
    else
      var t := if phase.Committing? then Move(s, f, Verifying) else Stop(s, f);
      t.(rows := Bury(s.rows, {m}), intents := s.intents - {app})
  }

  // ---------------------------------------------------------------- recording a target

  /** Upstream is asked whether the memory is gone. */
  function VerifyStep(s: World, f: nat, answered: bool): World
    requires Busy(s, f)
  {
    var z, m := s.finalizers[f], TargetOf(s, f);
    if !answered then Stop(s, f)
    else if m in s.upstream then FailProposal(s, f, z.proposal)
    else Move(s, f, Recording).(log := s.log + [Verified(f, z.proposal, m)])
  }

  function RecordStep(s: World, f: nat): World
    requires Busy(s, f)
  {
    var z, m := s.finalizers[f], TargetOf(s, f);
    var known := (z.proposal, m) in s.lineage;
    s.(finalizers := s.finalizers[f := z.(at := z.at + 1, phase := Looking)],
       lineage := if known then s.lineage else s.lineage + [(z.proposal, m)],
       log := if known then s.log else s.log + [Recorded(z.proposal, m)])
  }

  function ApplyStep(s: World, f: nat): World
    requires f in s.finalizers && s.finalizers[f].proposal in s.proposals
  {
    var id := s.finalizers[f].proposal;
    Stop(s, f).(proposals := s.proposals[id := s.proposals[id].(status := Applied)])
  }

  // ---------------------------------------------------------------- runs

  datatype Event =
    | Tick(elapsed: nat)
    | Propose(id: nat, app: string, kind: Kind, sources: seq<string>, canonical: Option<string>, review: bool)
    | ApproveIt(id: nat, a: Approval, policy: bool)
    | Replace(r: nat, id: nat, hashes: Hashes, policy: bool)
    | Replaced(r: nat, memory: string, hash: string)
    | BeginShadow(attempt: nat, id: nat, lease: nat, ready: bool)
    | Mismatch(attempt: nat)
    | EndShadow(attempt: nat, job: Export, upstreamMatches: bool, grace: nat)
    | Rollback(id: nat)
    | Upsert(memory: string, app: string, hash: string, pinned: bool)
    | Delete(memory: string)
    | Upstream(memory: string, copy: Option<Copy>)     // the memory appears, changes or disappears upstream
    | Elsewhere(app: string, intent: Option<Intent>)   // another request or recovery opens, moves or closes an intent
    | BeginFinalize(f: nat, id: nat, enabled: bool)
    | Look(f: nat)
    | Check(f: nat, answered: bool)
    | Claim(f: nat)
    | Observe(f: nat, answered: bool)
    | Open(f: nat)
    | Ask(f: nat, response: Response)
    | Commit(f: nat)
    | Verify(f: nat, answered: bool)
    | Record(f: nat)
    | Apply(f: nat)
    | Crash(f: nat)

  predicate InPhase(s: World, f: nat, phase: Phase) {
    Busy(s, f) && s.finalizers[f].phase == phase
  }

  predicate Enabled(s: World, e: Event) {
    match e
    case Tick(_) => true
    case Propose(id, _, kind, sources, canonical, _) =>
      && id !in s.proposals && sources != [] && Distinct(sources)
      && (canonical.Some? ==> canonical.value in sources) && (Semantic(kind) ==> canonical.None?)
    case ApproveIt(id, _, _) => id in s.proposals
    case Replace(r, id, _, _) => id in s.proposals && r !in s.replacing
    case Replaced(r, _, _) => r in s.replacing && s.replacing[r].0 in s.proposals
    case BeginShadow(attempt, id, _, _) => id in s.proposals && attempt !in s.used
    case Mismatch(attempt) => attempt in s.shadows && s.shadows[attempt].proposal in s.proposals
    case EndShadow(attempt, _, _, _) => attempt in s.shadows && s.shadows[attempt].proposal in s.proposals
    case Rollback(id) => id in s.proposals
    case Upsert(_, _, _, _) => true
    case Delete(_) => true
    case Upstream(_, _) => true
    case Elsewhere(_, _) => true
    case BeginFinalize(f, id, _) => id in s.proposals && f !in s.used
    case _ => e.f in s.finalizers && Ready(s, e)
  }

  /** Whether a finalizer has come to this step. */
  predicate Ready(s: World, e: Event)
    requires Working(e) && e.f in s.finalizers
  {
    match e
    case Look(f) => InPhase(s, f, Looking)
    case Check(f, _) => InPhase(s, f, Checking)
    case Claim(f) => InPhase(s, f, Claiming)
    case Observe(f, _) => Busy(s, f) && s.finalizers[f].phase.Observing?
    case Open(f) => InPhase(s, f, Opening)
    case Ask(f, _) => Busy(s, f) && s.finalizers[f].phase.Asking?
    case Commit(f) => Busy(s, f) && (s.finalizers[f].phase.Committing? || s.finalizers[f].phase.Missing?)
    case Verify(f, _) => InPhase(s, f, Verifying)
    case Record(f) => InPhase(s, f, Recording)
    case Apply(f) =>
      && s.finalizers[f].phase.Looking? && s.finalizers[f].proposal in s.proposals
      && s.finalizers[f].at == |s.finalizers[f].targets|
    case Crash(f) => true
  }

  /** The steps of a finalizer that has begun. */
  predicate Working(e: Event) {
    || e.Look? || e.Check? || e.Claim? || e.Observe? || e.Open? || e.Ask? || e.Commit? || e.Verify? || e.Record?
    || e.Apply? || e.Crash?
  }

  function Step(s: World, e: Event): World
    requires Enabled(s, e)
  {
    match e
    case Tick(elapsed) => s.(now := s.now + elapsed)
    case Propose(id, app, kind, sources, canonical, review) =>
      s.(proposals := s.proposals[id := NewProposal(app, kind, sources, canonical, review)])
    case ApproveIt(id, a, policy) => ApproveStep(s, id, a, policy)
    case Replace(r, id, hashes, policy) => ReplaceStep(s, r, id, hashes, policy)
    case Replaced(r, memory, hash) => ReplacedStep(s, r, memory, hash)
    case BeginShadow(attempt, id, lease, ready) => ShadowStep(s, attempt, id, lease, ready)
    case Mismatch(attempt) => MismatchStep(s, attempt)
    case EndShadow(attempt, job, upstreamMatches, grace) => ShadowedStep(s, attempt, job, upstreamMatches, grace)
    case Rollback(id) => RollbackStep(s, id)
    case Upsert(memory, app, hash, pinned) => UpsertStep(s, memory, app, hash, pinned)
    case Delete(memory) => DeleteStep(s, memory)
    case Upstream(memory, copy) => UpstreamStep(s, memory, copy)
    case Elsewhere(app, intent) => ElsewhereStep(s, app, intent)
    case BeginFinalize(f, id, enabled) => FinalizeStep(s, f, id, enabled)
    case _ => FinalizerStep(s, e)
  }

  function FinalizerStep(s: World, e: Event): World
    requires Working(e) && e.f in s.finalizers && Ready(s, e)
  {
    match e
    case Look(f) => LookStep(s, f)
    case Check(f, answered) => CheckStep(s, f, answered)
    case Claim(f) => ClaimStep(s, f)
    case Observe(f, answered) => ObserveStep(s, f, answered)
    case Open(f) => OpenStep(s, f)
    case Ask(f, response) => AskStep(s, f, response)
    case Commit(f) => CommitStep(s, f)
    case Verify(f, answered) => VerifyStep(s, f, answered)
    case Record(f) => RecordStep(s, f)
    case Apply(f) => ApplyStep(s, f)
    case Crash(f) => Stop(s, f)
  }

  ghost predicate Run(s: World, es: seq<Event>, t: World)
    decreases |es|
  {
    if es == [] then s == t else Enabled(s, es[0]) && Run(Step(s, es[0]), es[1..], t)
  }

  lemma EmptyRun(t: World)
    ensures Run(t, [], t)
  {
  }

  lemma RunCons(s: World, e: Event, es: seq<Event>, t: World)
    requires Enabled(s, e) && Run(Step(s, e), es, t)
    ensures Run(s, [e] + es, t)
  {
    assert ([e] + es)[1..] == es;
  }

  lemma {:induction false} RunAppend(s: World, es: seq<Event>, t: World, fs: seq<Event>, u: World)
    requires Run(s, es, t) && Run(t, fs, u)
    ensures Run(s, es + fs, u)
    decreases |es|
  {
    hide Step, Enabled;
    if es == [] {
      assert es + fs == fs;
    } else {
      RunAppend(Step(s, es[0]), es[1..], t, fs, u);
      assert (es + fs)[1..] == es[1..] + fs;
    }
  }

  lemma RunOne(s: World, e: Event)
    requires Enabled(s, e)
    ensures Run(s, [e], Step(s, e))
  {
    hide Step, Enabled;
    assert [e][1..] == [];
  }
}
