// The durable mutation-intent protocol as a state machine.  One event is one
// section of code under the project lock, from `lock_for_mutation` to commit or
// rollback; between two sections of a worker anything else may happen.
module MutationIntents {
  import opened Wrappers

  const MAX_ATTEMPTS := 3
  const MAX_TARGETS := 5000
  const DELETE_BATCH := 50
  const LEASE := 300_000_000  // LEASE_SECONDS, in microseconds

  datatype Scope = Scope(project: string, app: string)
  datatype Operation = Add | Update | Delete | Reconcile | EntityDelete
  datatype Status = Active | Unknown | Pending | Exhausted | Completed | Failed | Partial
  datatype TargetStatus = Waiting | Succeeded | Refused
  datatype Target = Target(memory: string, status: TargetStatus)
  datatype EventStatus = Open | EventSucceeded | EventFailed

  datatype Intent = Intent(
    scope: Scope, operation: Operation, key: string, fingerprint: string, noop: bool,
    status: Status, attempts: nat, lease: Option<int>, updatedAt: int,
    targets: seq<Target>, event: EventStatus, result: string)

  datatype RowKey = RowKey(project: string, memory: string)
  datatype Row = Row(app: string, live: bool, content: string, updatedAt: int)

  type Intents = map<nat, Intent>
  type Rows = map<RowKey, Row>

  predicate Blocking(status: Status) {
    status in {Active, Unknown, Pending, Exhausted}
  }

  // ---------------------------------------------------------------- MutationIntentRepository

  predicate LiveLease(x: Intent, now: int) { x.lease.Some? && x.lease.value > now }

  function MarkUnresolved(x: Intent, now: int): Intent {
    x.(status := if x.attempts >= MAX_ATTEMPTS then Exhausted else Unknown, lease := None, updatedAt := now)
  }

  function Fail(x: Intent, status: Status, now: int): Intent {
    x.(status := status, lease := None, updatedAt := now)
  }

  function Complete(x: Intent, result: string, now: int): Intent {
    x.(status := Completed, result := result, lease := None, updatedAt := now)
  }

  function Renew(x: Intent, now: int): Intent {
    x.(lease := Some(now + LEASE), updatedAt := now)
  }

  /** The exhausted add that may still be observed, though never replayed. */
  predicate ObservesExhaustedAdd(x: Intent) {
    x.operation.Add? && x.status.Exhausted? && x.attempts >= MAX_ATTEMPTS
  }

  /** `claim_recovery`: whether the claim was made, and the intent after it. */
  function ClaimRecovery(x: Intent, now: int): (bool, Intent) {
    if x.status.Active? && LiveLease(x, now) then (false, x)
    else if x.attempts >= MAX_ATTEMPTS && !ObservesExhaustedAdd(x) then (false, MarkUnresolved(x, now))
    else (true, x.(attempts := if ObservesExhaustedAdd(x) then x.attempts else x.attempts + 1,
                   status := Active, lease := Some(now + LEASE), updatedAt := now))
  }

  /** The test of `require_active_attempt`. */
  predicate ActiveAttempt(x: Intent, attempt: nat, claim: Option<int>) {
    x.status.Active? && x.attempts == attempt && (claim.Some? ==> x.updatedAt == claim.value)
  }

  predicate HasTarget(targets: seq<Target>, memory: string) {
    exists k :: 0 <= k < |targets| && targets[k].memory == memory
  }

  /** `add_targets`: one target for each new memory id, in order. */
  function AddTargets(targets: seq<Target>, ids: seq<string>, status: TargetStatus): seq<Target>
    decreases |ids|
  {
    if ids == [] then targets
    else if HasTarget(targets, ids[0]) then AddTargets(targets, ids[1..], status)
    else AddTargets(targets + [Target(ids[0], status)], ids[1..], status)
  }

  function MarkAll(targets: seq<Target>, status: TargetStatus): (r: seq<Target>) {
    seq(|targets|, k requires 0 <= k < |targets| => targets[k].(status := status))
  }

  function CountTargets(targets: seq<Target>, status: TargetStatus): (n: nat)
    ensures n <= |targets|
  {
    if targets == [] then 0 else
    (if targets[0].status == status then 1 else 0) + CountTargets(targets[1..], status)
  }

  // ---------------------------------------------------------------- MemoryIndexRepository

  /** A memory as the upstream reports it. */
  datatype Record = Record(memory: string, content: string)

  function Upsert(rows: Rows, scope: Scope, records: seq<Record>, now: int): Rows
    decreases |records|
  {
    if records == [] then rows
    else Upsert(rows[RowKey(scope.project, records[0].memory) := Row(scope.app, true, records[0].content, now)],
                scope, records[1..], now)
  }

  /** `delete_memory` marks a live row deleted. */
  function DeleteRow(rows: Rows, project: string, memory: string): Rows {
    var k := RowKey(project, memory);
    if k in rows && rows[k].live then rows[k := rows[k].(live := false)] else rows
  }

  function DeleteRows(rows: Rows, project: string, ids: seq<string>): Rows
    decreases |ids|
  {
    if ids == [] then rows else DeleteRows(DeleteRow(rows, project, ids[0]), project, ids[1..])
  }

  /** `get_memory` for an application. */
  function GetRow(rows: Rows, scope: Scope, memory: string): Option<Row> {
    var k := RowKey(scope.project, memory);
    if k in rows && rows[k].live && rows[k].app == scope.app then Some(rows[k]) else None
  }

  // ---------------------------------------------------------------- workers

  /** A request (`creator`) or a recovery pass at work on an intent, with the token it will show. */
  datatype Worker = Worker(
    intent: nat, attempt: nat, claim: Option<int>, creator: bool,
    before: map<string, Row>,  // the rows it read when it started
    called: bool,              // a creator of an add has called upstream
    position: nat,             // targets an entity delete has gone through
    broken: bool,              // an entity delete stopped in the middle of a batch
    ended: bool)

  datatype Section =
    // requests
    | NoteNoop                                                   // an add changed nothing upstream
    | AddCommit(records: seq<Record>, result: string)
    | RenewLease                                                 // updates, between two upstream calls
    | UpdateCommit(content: string, result: string)
    | UpdateMissing
    | DeleteCommit(result: string, missing: bool)
    | EntityBatch(deleted: seq<bool>, cut: bool)
    | EntityFinish(result: string)
    | ReconcileBatch(writes: Rows)
    | ReconcileFinish(result: string)
    | RecordFailure(unknown: bool, markEvent: bool)
    // recovery
    | AddReceiptFailed
    | AddObservedNoop(result: string)
    | AddObserved(records: seq<Record>, result: string)
    | UpdateNotObserved
    | UpdateObserved(content: string, result: string)
    | DeleteRenew
    | DeleteObserved(absent: set<string>, result: string)
    | ReconcileAbort
    | ObservationFailed

  /** Which worker runs which section. */
  predicate Runs(w: Worker, operation: Operation, targets: nat, section: Section) {
    match section
    case NoteNoop => w.creator && operation.Add? && w.called
    case AddCommit(_, _) => w.creator && operation.Add? && w.called
    case RenewLease => w.creator && operation.Update?
    case UpdateCommit(_, _) => w.creator && operation.Update?
    case UpdateMissing => w.creator && operation.Update?
    case DeleteCommit(_, _) => w.creator && operation.Delete?
    case EntityBatch(deleted, cut) =>
      && w.creator && operation.EntityDelete? && !w.broken && w.position < targets && |deleted| > 0
      && var full := if targets - w.position < DELETE_BATCH then targets - w.position else DELETE_BATCH;
        if cut then |deleted| < full else |deleted| == full
    case EntityFinish(_) => w.creator && operation.EntityDelete? && !w.broken && w.position == targets
    case ReconcileBatch(_) => w.creator && operation.Reconcile?
    case ReconcileFinish(_) => w.creator && operation.Reconcile?
    case RecordFailure(_, _) => w.creator
    case AddReceiptFailed => !w.creator && operation.Add?
    case AddObservedNoop(_) => !w.creator && operation.Add?
    case AddObserved(records, _) => !w.creator && operation.Add? && records != []
    case UpdateNotObserved => !w.creator && operation.Update?
    case UpdateObserved(_, _) => !w.creator && operation.Update?
    case DeleteRenew => !w.creator && (operation.Delete? || operation.EntityDelete?)
    case DeleteObserved(_, _) => !w.creator && (operation.Delete? || operation.EntityDelete?)
    case ReconcileAbort => !w.creator && operation.Reconcile?
    case ObservationFailed => !w.creator
  }

  /** What a section writes before it commits. */
  datatype Change = Change(intent: Intent, rows: Rows)

  function Memories(records: seq<Record>): seq<string> {
    seq(|records|, k requires 0 <= k < |records| => records[k].memory)
  }

  function AddChange(x: Intent, rows: Rows, records: seq<Record>, mark: bool, result: string, now: int): Option<Change> {
    var targets := AddTargets(x.targets, Memories(records), Succeeded);
    if |targets| > MAX_TARGETS then None
    else Some(Change(
      Complete(x.(targets := if mark then MarkAll(targets, Succeeded) else targets, event := EventSucceeded), result, now),
      Upsert(rows, x.scope, records, now)))
  }

  /** A single-target request checks that its row has not changed since it started. */
  predicate RowUnchanged(x: Intent, rows: Rows, w: Worker) {
    && |x.targets| == 1 && x.targets[0].memory in w.before
    && GetRow(rows, x.scope, x.targets[0].memory) == Some(w.before[x.targets[0].memory])
  }

  function MarkFirst(x: Intent, status: TargetStatus): Intent
    requires |x.targets| == 1
  {
    x.(targets := [x.targets[0].(status := status)])
  }

  /** The rows of a batch of an entity delete: each must still be the one the request read. */
  predicate BatchUnchanged(x: Intent, rows: Rows, w: Worker, deleted: seq<bool>, k: nat)
    requires w.position + |deleted| <= |x.targets|
    decreases |deleted| - k
  {
    if k >= |deleted| then true
    else if !deleted[k] then BatchUnchanged(x, rows, w, deleted, k + 1)
    else
      var memory := x.targets[w.position + k].memory;
      var row := GetRow(rows, x.scope, memory);
      && row.Some? && memory in w.before && row.value.updatedAt == w.before[memory].updatedAt
      && BatchUnchanged(x, DeleteRow(rows, x.scope.project, memory), w, deleted, k + 1)
  }

  function BatchRows(x: Intent, rows: Rows, w: Worker, deleted: seq<bool>, k: nat): Rows
    requires w.position + |deleted| <= |x.targets|
    decreases |deleted| - k
  {
    if k >= |deleted| then rows
    else if !deleted[k] then BatchRows(x, rows, w, deleted, k + 1)
    else BatchRows(x, DeleteRow(rows, x.scope.project, x.targets[w.position + k].memory), w, deleted, k + 1)
  }

  function BatchTargets(targets: seq<Target>, position: nat, deleted: seq<bool>): (r: seq<Target>)
    requires position + |deleted| <= |targets|
    ensures |r| == |targets|
  {
    seq(|targets|, k requires 0 <= k < |targets| =>
      if position <= k < position + |deleted|
      then targets[k].(status := if deleted[k - position] then Succeeded else Refused) else targets[k])
  }

  /** The verdict on a delete whose targets have all been gone through. */
  function Settled(x: Intent, result: string, now: int): Intent {
    if x.operation.EntityDelete? && CountTargets(x.targets, Refused) > 0 then
      Fail(x.(event := EventFailed, result := result),
           if CountTargets(x.targets, Succeeded) > 0 then Partial else Failed, now)
    else Complete(x.(event := EventSucceeded), result, now)
  }

  function MarkMissing(targets: seq<Target>, missing: set<string>): (r: seq<Target>)
    ensures |r| == |targets|
  {
    seq(|targets|, k requires 0 <= k < |targets| =>
      if targets[k].status.Waiting? && targets[k].memory in missing then targets[k].(status := Succeeded) else targets[k])
  }

  /** The waiting targets that are in `missing`, in order. */
  function WaitingIn(targets: seq<Target>, missing: set<string>): seq<string> {
    if targets == [] then [] else
    (if targets[0].status.Waiting? && targets[0].memory in missing then [targets[0].memory] else [])
    + WaitingIn(targets[1..], missing)
  }

  function DeleteObservedChange(x: Intent, rows: Rows, missing: set<string>, result: string, now: int): Change {
    var y := x.(targets := MarkMissing(x.targets, missing));
    Change(
      if CountTargets(y.targets, Waiting) > 0 then MarkUnresolved(y.(event := EventFailed), now)
      else Settled(y, result, now),
      DeleteRows(rows, x.scope.project, WaitingIn(x.targets, missing)))
  }

  /** The effect of a section whose fence holds; None when it raises and rolls back. */
  function Effect(x: Intent, rows: Rows, w: Worker, section: Section, now: int): Option<Change>
    requires Runs(w, x.operation, |x.targets|, section)
  {
    match section
    case NoteNoop => Some(Change(x.(noop := true, updatedAt := now), rows))
    case AddCommit(records, result) => AddChange(x, rows, records, false, result, now)
    case RenewLease => Some(Change(Renew(x, now), rows))
    case UpdateCommit(content, result) =>
      if !RowUnchanged(x, rows, w) then None
      else Some(Change(Complete(MarkFirst(x, Succeeded).(event := EventSucceeded), result, now),
                       Upsert(rows, x.scope, [Record(x.targets[0].memory, content)], now)))
    case UpdateMissing =>
      if !RowUnchanged(x, rows, w) then None
      else Some(Change(Fail(MarkFirst(x, Refused).(event := EventFailed), Failed, now),
                       DeleteRow(rows, x.scope.project, x.targets[0].memory)))
    case DeleteCommit(result, missing) =>
      if !RowUnchanged(x, rows, w) then None
      else Some(Change(Complete(MarkFirst(x, Succeeded).(event := if missing then EventFailed else EventSucceeded), result, now),
                       DeleteRow(rows, x.scope.project, x.targets[0].memory)))
    case EntityBatch(deleted, _) =>
      if !BatchUnchanged(x, rows, w, deleted, 0) then None
      else Some(Change(Renew(x.(targets := BatchTargets(x.targets, w.position, deleted)), now), BatchRows(x, rows, w, deleted, 0)))
    case EntityFinish(result) => Some(Change(Settled(x, result, now), rows))
    case ReconcileBatch(writes) => Some(Change(Renew(x, now), rows + writes))
    case ReconcileFinish(result) => Some(Change(Complete(x.(event := EventSucceeded), result, now), rows))
    case RecordFailure(unknown, markEvent) =>
      var y := if markEvent then x.(event := EventFailed) else x;
      Some(Change(if unknown then MarkUnresolved(y, now) else Fail(y, Failed, now), rows))
    case AddReceiptFailed => Some(Change(Fail(x.(event := EventFailed), Failed, now), rows))
    case AddObservedNoop(result) => Some(Change(Complete(x.(event := EventSucceeded), result, now), rows))
    case AddObserved(records, result) => AddChange(x, rows, records, true, result, now)
    case UpdateNotObserved => Some(Change(MarkUnresolved(x.(event := EventFailed), now), rows))
    case UpdateObserved(content, result) =>
      if |x.targets| != 1 then None
      else Some(Change(Complete(MarkFirst(x, Succeeded).(event := EventSucceeded), result, now),
                       Upsert(rows, x.scope, [Record(x.targets[0].memory, content)], now)))
    case DeleteRenew => Some(Change(Renew(x, now), rows))
    case DeleteObserved(absent, result) => Some(DeleteObservedChange(x, rows, absent, result, now))
    case ReconcileAbort => Some(Change(Fail(x.(event := EventFailed), Failed, now), rows))
    case ObservationFailed => Some(Change(MarkUnresolved(x.(event := EventFailed), now), rows))
  }

  // ---------------------------------------------------------------- the world

  datatype World = World(
    intents: Intents, rows: Rows, now: int,
    workers: map<nat, Worker>,
    holder: map<nat, nat>,  // the worker that created or last claimed each intent
    calls: seq<nat>)        // the intents for which `add_memory` was called upstream, in order

  datatype Request = Request(scope: Scope, operation: Operation, key: string, fingerprint: string, ids: seq<string>)

  datatype Event =
    | Tick(elapsed: nat)
    | Create(w: nat, i: nat, request: Request)
    | CallAdd(w: nat)
    | Perform(w: nat, section: Section)
    | Claim(w: nat, i: nat)
    | Resolve(i: nat, expectedStatus: Status, expectedAttempts: nat)
    | Elsewhere(writes: Rows)  // another service writes projection rows

  predicate Blocked(intents: Intents, scope: Scope) {
    exists i :: i in intents && intents[i].scope == scope && Blocking(intents[i].status)
  }

  predicate KeyUsed(intents: Intents, scope: Scope, operation: Operation, key: string) {
    exists i :: i in intents && intents[i].scope == scope && intents[i].operation == operation && intents[i].key == key
  }

  /** The memories a request names: updates and deletes have one, which exists. */
  predicate WellTargeted(rows: Rows, r: Request) {
    && |AddTargets([], r.ids, Waiting)| <= MAX_TARGETS
    && (r.operation.Update? || r.operation.Delete? ==> |r.ids| == 1 && GetRow(rows, r.scope, r.ids[0]).Some?)
    && (r.operation.Add? || r.operation.Reconcile? ==> r.ids == [])
  }

  /** The section from the last check of `recover_pending_mutations` to the commit of the intent goes through. */
  predicate Admits(s: World, r: Request) {
    !Blocked(s.intents, r.scope) && !KeyUsed(s.intents, r.scope, r.operation, r.key) && WellTargeted(s.rows, r)
  }

  function NewIntent(r: Request, now: int): Intent {
    Intent(r.scope, r.operation, r.key, r.fingerprint, false, Active, 1, Some(now + LEASE), now,
           AddTargets([], r.ids, Waiting), Open, "")
  }

  function RowsBefore(rows: Rows, r: Request): map<string, Row> {
    map m | m in r.ids && GetRow(rows, r.scope, m).Some? :: GetRow(rows, r.scope, m).value
  }

  function CreateStep(s: World, w: nat, i: nat, r: Request): World {
    if !Admits(s, r) then s
    else s.(intents := s.intents[i := NewIntent(r, s.now)],
            workers := s.workers[w := Worker(i, 1, None, true, RowsBefore(s.rows, r), false, 0, false, false)],
            holder := s.holder[i := w])
  }

  /** The recovery pass that has just claimed intent `i`, which was `x`. */
  function Claimer(x: Intent, now: int, i: nat): Worker {
    Worker(i, ClaimRecovery(x, now).1.attempts, if x.operation.Add? then Some(now) else None,
           false, map[], false, 0, false, false)
  }

  function ClaimStep(s: World, w: nat, i: nat): World
    requires i in s.intents
  {
    var x := s.intents[i];
    if !Blocking(x.status) then s
    else
      var (claimed, y) := ClaimRecovery(x, s.now);
      var t := s.(intents := s.intents[i := y]);
      if !claimed then t
      else t.(workers := s.workers[w := Claimer(x, s.now, i)], holder := s.holder[i := w])
  }

  /** The fence: recovery of an add shows the time of its claim as well as the attempt. */
  predicate FenceHolds(intents: Intents, w: Worker) {
    w.intent in intents && ActiveAttempt(intents[w.intent], w.attempt, w.claim)
  }

  /** What a section commits: nothing when its fence is lost or it raises. */
  function Committed(intents: Intents, rows: Rows, now: int, w: Worker, section: Section): Option<Change>
    requires w.intent in intents && Runs(w, intents[w.intent].operation, |intents[w.intent].targets|, section)
  {
    if !FenceHolds(intents, w) then None else Effect(intents[w.intent], rows, w, section, now)
  }

  /** What a committed section leaves of its worker: nothing once the intent is no longer active. */
  function After(w: Worker, section: Section, x: Intent): Worker {
    var moved :=
      if section.EntityBatch? then w.(position := w.position + |section.deleted|, broken := section.cut) else w;
    moved.(ended := !x.status.Active?)
  }

  function PerformStep(s: World, id: nat, section: Section): World
    requires id in s.workers && s.workers[id].intent in s.intents
    requires var x := s.intents[s.workers[id].intent]; Runs(s.workers[id], x.operation, |x.targets|, section)
  {
    var w := s.workers[id];
    match Committed(s.intents, s.rows, s.now, w, section)
    case None => s
    case Some(change) =>
      s.(intents := s.intents[w.intent := change.intent], rows := change.rows,
         workers := s.workers[id := After(w, section, change.intent)])
  }

  /** The two checks of `resolve_intent`, and the failure it records. */
  predicate Resolvable(x: Intent, now: int, expectedStatus: Status, expectedAttempts: nat) {
    (x.status.Unknown? || x.status.Exhausted?) && !LiveLease(x, now) && x.status == expectedStatus && x.attempts == expectedAttempts
  }

  function ResolveStep(s: World, i: nat, expectedStatus: Status, expectedAttempts: nat): World {
    if i !in s.intents || !Resolvable(s.intents[i], s.now, expectedStatus, expectedAttempts) then s
    else s.(intents := s.intents[i := Fail(s.intents[i].(event := EventFailed), Failed, s.now)])
  }

  predicate Enabled(s: World, e: Event) {
    match e
    case Tick(_) => true
    case Create(w, i, _) => w !in s.workers && i !in s.intents
    case CallAdd(w) =>
      && w in s.workers && s.workers[w].intent in s.intents && !s.workers[w].ended
      && s.workers[w].creator && !s.workers[w].called && s.intents[s.workers[w].intent].operation.Add?
    case Perform(w, section) =>
      && w in s.workers && s.workers[w].intent in s.intents && !s.workers[w].ended
      && var x := s.intents[s.workers[w].intent]; Runs(s.workers[w], x.operation, |x.targets|, section)
    case Claim(w, i) => w !in s.workers && i in s.intents
    case Resolve(_, _, _) => true
    case Elsewhere(_) => true
  }

  function Step(s: World, e: Event): World
    requires Enabled(s, e)
  {
    match e
    case Tick(elapsed) => s.(now := s.now + elapsed)
    case Create(w, i, request) => CreateStep(s, w, i, request)
    case CallAdd(w) =>
      s.(workers := s.workers[w := s.workers[w].(called := true)], calls := s.calls + [s.workers[w].intent])
    case Perform(w, section) => PerformStep(s, w, section)
    case Claim(w, i) => ClaimStep(s, w, i)
    case Resolve(i, expectedStatus, expectedAttempts) => ResolveStep(s, i, expectedStatus, expectedAttempts)
    case Elsewhere(writes) => s.(rows := s.rows + writes)
  }

  ghost predicate Run(s: World, es: seq<Event>, t: World)
    decreases |es|
  {
    if es == [] then s == t else Enabled(s, es[0]) && Run(Step(s, es[0]), es[1..], t)
  }

  // ---------------------------------------------------------------- the front of `add_memory`

  datatype AddReply =
    | Fresh                  // no intent under this key: go on to create one
    | ConflictingRequest     // "Idempotency-Key was already used with a different request"
    | Replay(result: string)
    | InProgress
    | Unresolved             // "outcome remains unresolved; no second add was issued"

  /** `_reuse_add_intent` before it tries recovery, and again (`recovered`) after it has. */
  function ReuseReply(x: Intent, fingerprint: string, now: int, recovered: bool): AddReply {
    if !recovered && x.fingerprint != fingerprint then ConflictingRequest
    else if x.status.Completed? && x.result != "" then Replay(x.result)
    else if !recovered && LiveLease(x, now) then InProgress
    else Unresolved
  }

  /** What `add_memory` answers when an intent may already exist under its key. */
  ghost function AddEntry(s: World, scope: Scope, key: string, fingerprint: string): AddReply {
    if !KeyUsed(s.intents, scope, Add, key) then Fresh
    else
      var i :| i in s.intents && s.intents[i].scope == scope && s.intents[i].operation.Add? && s.intents[i].key == key;
      ReuseReply(s.intents[i], fingerprint, s.now, false)
  }
}
