// What every run of the mutation-intent protocol keeps, whatever upstream
// answers, wherever workers stop, and however requests, recovery passes and
// operators interleave.
module MutationIntentTheorems {
  import opened MutationIntents
  import opened Wrappers

  // ---------------------------------------------------------------- the invariant

  /** No scope has two intents whose outcome is open. */
  ghost predicate OneOpen(intents: Intents) {
    forall i, j :: i in intents && j in intents && BothOpen(intents[i], intents[j]) ==> i == j
  }

  /** The unique constraint on operation keys. */
  ghost predicate KeysUnique(intents: Intents) {
    forall i, j :: i in intents && j in intents && SameKey(intents[i], intents[j]) ==> i == j
  }

  predicate BothOpen(x: Intent, y: Intent) { x.scope == y.scope && Blocking(x.status) && Blocking(y.status) }

  predicate SameKey(x: Intent, y: Intent) { x.scope == y.scope && x.operation == y.operation && x.key == y.key }

  ghost predicate AttemptsBounded(x: Intent, now: int) {
    && 1 <= x.attempts <= MAX_ATTEMPTS && x.updatedAt <= now
    && (x.status.Exhausted? ==> x.attempts == MAX_ATTEMPTS)
    && (x.status.Active? ==> x.lease.Some?)
  }

  ghost predicate IntentsInv(intents: Intents, now: int) {
    forall i :: i in intents ==> AttemptsBounded(intents[i], now)
  }

  /** The worker that holds an active intent shows the current token; every other running worker shows an older one. */
  ghost predicate TokenInv(x: Intent, now: int, w: Worker, holds: bool) {
    && 1 <= w.attempt <= x.attempts
    && (w.creator ==> w.attempt == 1 && w.claim.None?)
    && (!w.creator ==> (w.claim.Some? <==> x.operation.Add?))
    && (holds && x.status.Active? ==> Current(x, w))
    && (!w.ended && !(holds && x.status.Active?) ==> Outdated(x, now, w))
  }

  ghost predicate Current(x: Intent, w: Worker) {
    && x.attempts == w.attempt
    && (w.claim.Some? ==> x.updatedAt == w.claim.value && x.lease == Some(w.claim.value + LEASE))
  }

  ghost predicate Outdated(x: Intent, now: int, w: Worker) {
    && (w.claim.Some? ==> w.claim.value + LEASE <= now)
    && (x.status.Active? ==> w.attempt < x.attempts || (w.claim.Some? && w.claim.value < x.updatedAt))
  }

  ghost predicate Holds(holder: map<nat, nat>, i: nat, id: nat) { i in holder && holder[i] == id }

  ghost predicate Tokened(intents: Intents, now: int, w: Worker, id: nat, holder: map<nat, nat>) {
    w.intent in intents && TokenInv(intents[w.intent], now, w, Holds(holder, w.intent, id))
  }

  ghost predicate WorkersInv(intents: Intents, now: int, workers: map<nat, Worker>, holder: map<nat, nat>) {
    && (forall id :: id in workers ==> Tokened(intents, now, workers[id], id, holder))
    && (forall i :: i in holder ==> i in intents && holder[i] in workers && workers[holder[i]].intent == i)
  }

  /** Upstream adds are called by creators only, once each, and an intent has one creator. */
  ghost predicate CallsInv(intents: Intents, workers: map<nat, Worker>, calls: seq<nat>) {
    && (forall a, b :: 0 <= a < b < |calls| ==> calls[a] != calls[b])
    && (forall a :: 0 <= a < |calls| ==> calls[a] in intents && intents[calls[a]].operation.Add?)
    && (forall a, id :: 0 <= a < |calls| && id in workers && Creates(workers[id], calls[a]) ==> workers[id].called)
    && (forall a, b :: a in workers && b in workers && BothCreate(workers[a], workers[b]) ==> a == b)
    && (forall id :: id in workers ==> workers[id].intent in intents)
  }

  predicate Creates(w: Worker, i: nat) { w.creator && w.intent == i }

  predicate BothCreate(v: Worker, w: Worker) { v.creator && w.creator && v.intent == w.intent }

  /** What the targets of an intent say about its status. */
  ghost predicate TargetsTell(x: Intent) {
    && (x.operation.Update? || x.operation.Delete? ==> |x.targets| == 1)
    && (x.operation.Delete? || x.operation.Reconcile? || x.operation.Add? ==> NoneIs(x.targets, Refused))
    && (x.operation.Reconcile? ==> x.targets == [])
    && (x.operation.Add? && !x.status.Completed? ==> x.targets == [])
    && (x.status.Completed? ==> AllAre(x.targets, Succeeded))
    && (x.status.Partial? ==> x.operation.EntityDelete? && Mixed(x.targets))
  }

  ghost predicate AllAre(targets: seq<Target>, status: TargetStatus) {
    forall k :: 0 <= k < |targets| ==> targets[k].status == status
  }

  ghost predicate NoneIs(targets: seq<Target>, status: TargetStatus) {
    forall k :: 0 <= k < |targets| ==> targets[k].status != status
  }

  /** Every target was gone through; some went, some did not. */
  ghost predicate Mixed(targets: seq<Target>) {
    NoneIs(targets, Waiting) && !NoneIs(targets, Succeeded) && !NoneIs(targets, Refused)
  }

  /** An entity delete in progress has gone through its first `position` targets. */
  ghost predicate Gone(x: Intent, w: Worker) {
    x.operation.EntityDelete? && w.creator ==>
      w.position <= |x.targets| && forall k :: 0 <= k < w.position ==> !x.targets[k].status.Waiting?
  }

  ghost predicate TargetsInv(intents: Intents, workers: map<nat, Worker>) {
    && (forall i :: i in intents ==> TargetsTell(intents[i]))
    && (forall id :: id in workers && workers[id].intent in intents ==> Gone(intents[workers[id].intent], workers[id]))
  }

  ghost predicate Inv(s: World) {
    && OneOpen(s.intents) && KeysUnique(s.intents) && IntentsInv(s.intents, s.now)
    && WorkersInv(s.intents, s.now, s.workers, s.holder)
    && CallsInv(s.intents, s.workers, s.calls) && TargetsInv(s.intents, s.workers)
  }

  function Start(rows: Rows, now: int): World { World(map[], rows, now, map[], map[], []) }

  lemma StartKeeps(rows: Rows, now: int)
    ensures Inv(Start(rows, now))
  {
  }

  // ---------------------------------------------------------------- one intent changes

  /** What never changes about an intent, and how its targets may move on. */
  ghost predicate Evolves(x: Intent, y: Intent) {
    && SameKey(x, y) && y.fingerprint == x.fingerprint && y.attempts >= x.attempts && y.updatedAt >= x.updatedAt
    && (Blocking(y.status) ==> Blocking(x.status))
    && (x.operation.EntityDelete? ==>
          |y.targets| == |x.targets| && forall k :: 0 <= k < |x.targets| && !x.targets[k].status.Waiting? ==> !y.targets[k].status.Waiting?)
  }

  lemma ReplaceKeeps(intents: Intents, i: nat, y: Intent, now: int)
    requires OneOpen(intents) && KeysUnique(intents) && IntentsInv(intents, now)
    requires i in intents && Evolves(intents[i], y) && AttemptsBounded(y, now)
    ensures OneOpen(intents[i := y]) && KeysUnique(intents[i := y]) && IntentsInv(intents[i := y], now)
  {
    hide AttemptsBounded;
  }

  lemma ReplaceTargets(intents: Intents, i: nat, y: Intent, workers: map<nat, Worker>)
    requires TargetsInv(intents, workers) && i in intents && Evolves(intents[i], y) && TargetsTell(y)
    ensures TargetsInv(intents[i := y], workers)
  {
    hide TargetsTell;
  }

  lemma ReplaceCalls(intents: Intents, i: nat, y: Intent, workers: map<nat, Worker>, calls: seq<nat>)
    requires CallsInv(intents, workers, calls) && i in intents && y.operation == intents[i].operation
    ensures CallsInv(intents[i := y], workers, calls)
  {
  }

  lemma {:induction false} CountIs(targets: seq<Target>, status: TargetStatus)
    ensures CountTargets(targets, status) == 0 <==> NoneIs(targets, status)
  {
    if targets != [] {
      CountIs(targets[1..], status);
      assert forall k :: 1 <= k < |targets| ==> targets[k] == targets[1..][k - 1];
    }
  }

  lemma {:induction false} AddedAre(targets: seq<Target>, ids: seq<string>, status: TargetStatus)
    requires AllAre(targets, status)
    ensures AllAre(AddTargets(targets, ids, status), status)
    decreases |ids|
  {
    if ids != [] {
      AddedAre(if HasTarget(targets, ids[0]) then targets else targets + [Target(ids[0], status)], ids[1..], status);
    }
  }

  lemma SettledTells(x: Intent, result: string, now: int)
    requires NoneIs(x.targets, Waiting) && TargetsTell(x) && (x.operation.Delete? || x.operation.EntityDelete?)
    ensures TargetsTell(Settled(x, result, now))
  {
    CountIs(x.targets, Refused);
    CountIs(x.targets, Succeeded);
  }

  /** Every section of a worker that holds the fence leaves an intent that its targets justify. */
  lemma EffectTells(x: Intent, rows: Rows, w: Worker, section: Section, now: int)
    requires Runs(w, x.operation, |x.targets|, section) && Effect(x, rows, w, section, now).Some?
    requires TargetsTell(x) && Gone(x, w) && x.status.Active?
    ensures TargetsTell(Effect(x, rows, w, section, now).value.intent)
  {
    match section {
      case AddCommit(records, _) => AddedAre([], Memories(records), Succeeded);
      case AddObserved(records, _) => AddedAre([], Memories(records), Succeeded);
      case EntityFinish(result) => SettledTells(x, result, now);
      case DeleteObserved(absent, result) =>
        var y := x.(targets := MarkMissing(x.targets, absent));
        CountIs(y.targets, Waiting);
        if NoneIs(y.targets, Waiting) { SettledTells(y, result, now); }
      case _ =>
    }
  }

  lemma EffectEvolves(x: Intent, rows: Rows, w: Worker, section: Section, now: int)
    requires Runs(w, x.operation, |x.targets|, section) && Effect(x, rows, w, section, now).Some?
    requires AttemptsBounded(x, now) && x.status.Active?
    ensures var y := Effect(x, rows, w, section, now).value.intent;
      && Evolves(x, y) && y.attempts == x.attempts && AttemptsBounded(y, now)
      && (y.status.Active? ==> w.creator || !x.operation.Add?)
  {
    hide CountTargets, AddTargets;
  }

  lemma EffectGone(x: Intent, rows: Rows, w: Worker, section: Section, now: int)
    requires Runs(w, x.operation, |x.targets|, section) && Effect(x, rows, w, section, now).Some?
    requires Gone(x, w) && AttemptsBounded(x, now) && x.status.Active?
    ensures var y := Effect(x, rows, w, section, now).value.intent; Gone(y, After(w, section, y))
  {
    EffectEvolves(x, rows, w, section, now);
    hide CountTargets, AddTargets;
  }

  // ---------------------------------------------------------------- the fence

  /** A running worker passes the fence exactly while it is the one that holds the active intent. */
  lemma FenceExact(s: World, id: nat)
    requires Inv(s) && id in s.workers && !s.workers[id].ended
    ensures var w := s.workers[id];
      && w.intent in s.intents
      && (FenceHolds(s.intents, w) <==> Holds(s.holder, w.intent, id) && s.intents[w.intent].status.Active?)
  {
    assert Tokened(s.intents, s.now, s.workers[id], id, s.holder);
  }

  // ---------------------------------------------------------------- every step keeps the invariant

  lemma PerformWorkers(s: World, id: nat, y: Intent, w': Worker)
    requires Inv(s) && id in s.workers && !s.workers[id].ended && FenceHolds(s.intents, s.workers[id])
    requires var w := s.workers[id]; var x := s.intents[w.intent];
      && y.attempts == x.attempts && y.operation == x.operation && x.updatedAt <= y.updatedAt
      && (y.status.Active? ==> w.creator || !x.operation.Add?)
      && w' == w.(position := w'.position, broken := w'.broken, ended := !y.status.Active?)
    ensures WorkersInv(s.intents[s.workers[id].intent := y], s.now, s.workers[id := w'], s.holder)
  {
    FenceExact(s, id);
    hide OneOpen, KeysUnique, IntentsInv, CallsInv, TargetsInv;
    var i := s.workers[id].intent;
    forall j | j in s.workers && s.workers[j].intent == i && j != id
      ensures TokenInv(y, s.now, s.workers[j], Holds(s.holder, i, j)) {
      assert Tokened(s.intents, s.now, s.workers[j], j, s.holder);
    }
    assert Tokened(s.intents, s.now, s.workers[id], id, s.holder);
  }

  lemma PerformCalls(s: World, id: nat, y: Intent, w': Worker)
    requires CallsInv(s.intents, s.workers, s.calls) && id in s.workers
    requires var w := s.workers[id];
      && w.intent in s.intents && y.operation == s.intents[w.intent].operation
      && w' == w.(position := w'.position, broken := w'.broken, ended := w'.ended)
    ensures CallsInv(s.intents[s.workers[id].intent := y], s.workers[id := w'], s.calls)
  {
  }

  lemma CommitKeeps(s: World, id: nat, y: Intent, rows: Rows, w': Worker)
    requires Inv(s) && id in s.workers && !s.workers[id].ended && FenceHolds(s.intents, s.workers[id])
    requires var w := s.workers[id]; var x := s.intents[w.intent];
      && Evolves(x, y) && y.attempts == x.attempts && AttemptsBounded(y, s.now) && TargetsTell(y) && Gone(y, w')
      && (y.status.Active? ==> w.creator || !x.operation.Add?)
      && w' == w.(position := w'.position, broken := w'.broken, ended := !y.status.Active?)
    ensures Inv(s.(intents := s.intents[s.workers[id].intent := y], rows := rows, workers := s.workers[id := w']))
  {
    var w := s.workers[id];
    var x := s.intents[w.intent];
    hide OneOpen, KeysUnique, IntentsInv, CallsInv, WorkersInv, TargetsTell, Gone, Evolves, AttemptsBounded;
    EvolvesParts(x, y);
    ReplaceKeeps(s.intents, w.intent, y, s.now);
    ReplaceTargets(s.intents, w.intent, y, s.workers);
    PerformWorkers(s, id, y, w');
    PerformCalls(s, id, y, w');
  }

  lemma PerformKeeps(s: World, id: nat, section: Section)
    requires Inv(s) && Enabled(s, Perform(id, section))
    ensures Inv(PerformStep(s, id, section))
  {
    var w := s.workers[id];
    var x := s.intents[w.intent];
    if FenceHolds(s.intents, w) && Effect(x, s.rows, w, section, s.now).Some? {
      var change := Effect(x, s.rows, w, section, s.now).value;
      assert TargetsTell(x) && Gone(x, w) && AttemptsBounded(x, s.now);
      hide Inv, Runs, Effect, TargetsTell, Gone, Evolves, AttemptsBounded;
      EffectTells(x, s.rows, w, section, s.now);
      EffectEvolves(x, s.rows, w, section, s.now);
      EffectGone(x, s.rows, w, section, s.now);
      CommitKeeps(s, id, change.intent, change.rows, After(w, section, change.intent));
    }
  }

  lemma EvolvesParts(x: Intent, y: Intent)
    requires Evolves(x, y)
    ensures y.operation == x.operation && x.updatedAt <= y.updatedAt
  {
  }

  lemma {:induction false} WaitingTargets(targets: seq<Target>, ids: seq<string>)
    requires AllAre(targets, Waiting)
    ensures |ids| == 1 && targets == [] ==> |AddTargets(targets, ids, Waiting)| == 1
    ensures ids == [] ==> AddTargets(targets, ids, Waiting) == targets
    ensures NoneIs(AddTargets(targets, ids, Waiting), Refused)
  {
    AddedAre(targets, ids, Waiting);
    if |ids| == 1 && targets == [] {
      assert !HasTarget(targets, ids[0]);
      assert AddTargets(targets, ids, Waiting) == AddTargets(targets + [Target(ids[0], Waiting)], ids[1..], Waiting);
    }
  }

  lemma NewIntentFits(s: World, r: Request)
    requires Admits(s, r)
    ensures TargetsTell(NewIntent(r, s.now)) && AttemptsBounded(NewIntent(r, s.now), s.now)
  {
    WaitingTargets([], r.ids);
  }

  lemma CreateTables(s: World, i: nat, r: Request)
    requires Inv(s) && i !in s.intents && Admits(s, r)
    ensures var intents := s.intents[i := NewIntent(r, s.now)];
      OneOpen(intents) && KeysUnique(intents) && IntentsInv(intents, s.now)
  {
    NewIntentFits(s, r);
    hide CallsInv, WorkersInv, TargetsInv, AttemptsBounded, WellTargeted, AddTargets;
  }

  lemma FreshWorkers(s: World, i: nat, x: Intent, w: nat, worker: Worker)
    requires WorkersInv(s.intents, s.now, s.workers, s.holder) && w !in s.workers && i !in s.intents
    requires worker.intent == i && TokenInv(x, s.now, worker, true)
    ensures WorkersInv(s.intents[i := x], s.now, s.workers[w := worker], s.holder[i := w])
  {
    hide TokenInv;
    forall id | id in s.workers ensures Tokened(s.intents[i := x], s.now, s.workers[id], id, s.holder[i := w]) {
      assert Tokened(s.intents, s.now, s.workers[id], id, s.holder);
    }
  }

  lemma FreshTables(s: World, i: nat, x: Intent, w: nat, worker: Worker)
    requires CallsInv(s.intents, s.workers, s.calls) && TargetsInv(s.intents, s.workers) && w !in s.workers && i !in s.intents
    requires worker.intent == i && !worker.called && worker.position == 0 && TargetsTell(x)
    ensures CallsInv(s.intents[i := x], s.workers[w := worker], s.calls)
    ensures TargetsInv(s.intents[i := x], s.workers[w := worker])
  {
    hide TargetsTell;
  }

  lemma CreateKeeps(s: World, w: nat, i: nat, r: Request)
    requires Inv(s) && w !in s.workers && i !in s.intents
    ensures Inv(CreateStep(s, w, i, r))
  {
    if Admits(s, r) {
      var x, worker := NewIntent(r, s.now), Worker(i, 1, None, true, RowsBefore(s.rows, r), false, 0, false, false);
      CreateTables(s, i, r);
      NewIntentFits(s, r);
      hide OneOpen, KeysUnique, IntentsInv, WorkersInv, CallsInv, TargetsInv, AddTargets, AttemptsBounded, TargetsTell, Admits, RowsBefore;
      FreshWorkers(s, i, x, w, worker);
      FreshTables(s, i, x, w, worker);
    }
  }

  /** The intent after a claim, and the token the new worker shows. */
  lemma ClaimEvolves(x: Intent, now: int)
    requires AttemptsBounded(x, now) && Blocking(x.status) && TargetsTell(x)
    ensures var (_, y) := ClaimRecovery(x, now);
      Evolves(x, y) && AttemptsBounded(y, now) && TargetsTell(y) && y.operation == x.operation
  {
  }

  /** A claim leaves every earlier worker with an outdated token. */
  lemma ClaimOutdates(x: Intent, now: int, w: Worker, holds: bool)
    requires AttemptsBounded(x, now) && Blocking(x.status) && TokenInv(x, now, w, holds)
    ensures var (claimed, y) := ClaimRecovery(x, now);
      TokenInv(y, now, w, holds && !claimed)
  {
  }

  lemma OutdatedWorkers(s: World, i: nat, y: Intent)
    requires WorkersInv(s.intents, s.now, s.workers, s.holder) && i in s.intents
    requires forall id :: id in s.workers && s.workers[id].intent == i ==>
      TokenInv(y, s.now, s.workers[id], Holds(s.holder, i, id))
    ensures WorkersInv(s.intents[i := y], s.now, s.workers, s.holder)
  {
    hide TokenInv;
    forall id | id in s.workers ensures Tokened(s.intents[i := y], s.now, s.workers[id], id, s.holder) {
      assert Tokened(s.intents, s.now, s.workers[id], id, s.holder);
    }
  }

  lemma ClaimedWorkers(s: World, i: nat, y: Intent, w: nat, worker: Worker)
    requires WorkersInv(s.intents, s.now, s.workers, s.holder) && i in s.intents
    requires forall id :: id in s.workers && s.workers[id].intent == i ==> TokenInv(y, s.now, s.workers[id], false)
    requires w !in s.workers && worker.intent == i && TokenInv(y, s.now, worker, true)
    ensures WorkersInv(s.intents[i := y], s.now, s.workers[w := worker], s.holder[i := w])
  {
    hide TokenInv;
    forall id | id in s.workers ensures Tokened(s.intents[i := y], s.now, s.workers[id], id, s.holder[i := w]) {
      assert Tokened(s.intents, s.now, s.workers[id], id, s.holder);
    }
  }

  lemma ClaimWorkers(s: World, i: nat)
    requires WorkersInv(s.intents, s.now, s.workers, s.holder) && IntentsInv(s.intents, s.now)
    requires i in s.intents && Blocking(s.intents[i].status)
    ensures var (claimed, y) := ClaimRecovery(s.intents[i], s.now);
      forall id :: id in s.workers && s.workers[id].intent == i ==>
        TokenInv(y, s.now, s.workers[id], Holds(s.holder, i, id) && !claimed)
  {
    var x := s.intents[i];
    forall id | id in s.workers && s.workers[id].intent == i
      ensures TokenInv(ClaimRecovery(x, s.now).1, s.now, s.workers[id], Holds(s.holder, i, id) && !ClaimRecovery(x, s.now).0) {
      assert Tokened(s.intents, s.now, s.workers[id], id, s.holder);
      hide ClaimRecovery, TokenInv;
      ClaimOutdates(x, s.now, s.workers[id], Holds(s.holder, i, id));
    }
  }

  lemma ClaimerCurrent(x: Intent, now: int, i: nat)
    requires AttemptsBounded(x, now) && ClaimRecovery(x, now).0
    ensures TokenInv(ClaimRecovery(x, now).1, now, Claimer(x, now, i), true)
  {
  }

  lemma ClaimKeeps(s: World, w: nat, i: nat)
    requires Inv(s) && w !in s.workers && i in s.intents
    ensures Inv(ClaimStep(s, w, i))
  {
    var x := s.intents[i];
    if Blocking(x.status) {
      var (claimed, y) := ClaimRecovery(x, s.now);
      assert AttemptsBounded(x, s.now) && TargetsTell(x);
      ClaimEvolves(x, s.now);
      ClaimWorkers(s, i);
      hide OneOpen, KeysUnique, IntentsInv, WorkersInv, CallsInv, TargetsInv, TargetsTell, TokenInv, Evolves, AttemptsBounded, ClaimRecovery;
      ReplaceKeeps(s.intents, i, y, s.now);
      ReplaceTargets(s.intents, i, y, s.workers);
      ReplaceCalls(s.intents, i, y, s.workers, s.calls);
      if !claimed {
        OutdatedWorkers(s, i, y);
      } else {
        ClaimerCurrent(x, s.now, i);
        ClaimedWorkers(s, i, y, w, Claimer(x, s.now, i));
        NewWorkerKeeps(s.intents[i := y], s.workers, s.calls, w, Claimer(x, s.now, i));
      }
    }
  }

  lemma NewWorkerKeeps(intents: Intents, workers: map<nat, Worker>, calls: seq<nat>, w: nat, worker: Worker)
    requires CallsInv(intents, workers, calls) && TargetsInv(intents, workers) && w !in workers && worker.intent in intents
    requires !worker.creator
    ensures CallsInv(intents, workers[w := worker], calls) && TargetsInv(intents, workers[w := worker])
  {
    hide TargetsTell;
  }

  lemma ResolveKeeps(s: World, i: nat, expectedStatus: Status, expectedAttempts: nat)
    requires Inv(s)
    ensures Inv(ResolveStep(s, i, expectedStatus, expectedAttempts))
  {
    if i in s.intents && Resolvable(s.intents[i], s.now, expectedStatus, expectedAttempts) {
      var y := Fail(s.intents[i].(event := EventFailed), Failed, s.now);
      ReplaceKeeps(s.intents, i, y, s.now);
      ReplaceTargets(s.intents, i, y, s.workers);
      ReplaceCalls(s.intents, i, y, s.workers, s.calls);
      hide OneOpen, KeysUnique, CallsInv, TargetsInv, IntentsInv;
      forall id | id in s.workers
        ensures Tokened(s.intents[i := y], s.now, s.workers[id], id, s.holder) {
        assert Tokened(s.intents, s.now, s.workers[id], id, s.holder);
      }
    }
  }

  lemma TickKeeps(s: World, elapsed: nat)
    requires Inv(s)
    ensures Inv(s.(now := s.now + elapsed))
  {
    hide OneOpen, KeysUnique, CallsInv, TargetsInv;
    forall id | id in s.workers ensures Tokened(s.intents, s.now + elapsed, s.workers[id], id, s.holder) {
      assert Tokened(s.intents, s.now, s.workers[id], id, s.holder);
    }
  }

  lemma CallWorkers(s: World, w: nat)
    requires WorkersInv(s.intents, s.now, s.workers, s.holder) && w in s.workers
    ensures WorkersInv(s.intents, s.now, s.workers[w := s.workers[w].(called := true)], s.holder)
  {
    var after := s.workers[w := s.workers[w].(called := true)];
    forall id | id in after ensures Tokened(s.intents, s.now, after[id], id, s.holder) {
      assert Tokened(s.intents, s.now, s.workers[id], id, s.holder);
    }
  }

  lemma CallKeeps(s: World, w: nat)
    requires Inv(s) && Enabled(s, CallAdd(w))
    ensures Inv(Step(s, CallAdd(w)))
  {
    hide OneOpen, KeysUnique, IntentsInv, TargetsTell;
    CallWorkers(s, w);
    hide WorkersInv;
  }

  lemma StepKeeps(s: World, e: Event)
    requires Inv(s) && Enabled(s, e)
    ensures Inv(Step(s, e))
  {
    hide Inv;
    match e
    case Tick(elapsed) => TickKeeps(s, elapsed);
    case Create(w, i, request) => CreateKeeps(s, w, i, request);
    case CallAdd(w) => CallKeeps(s, w);
    case Perform(w, section) => PerformKeeps(s, w, section);
    case Claim(w, i) => ClaimKeeps(s, w, i);
    case Resolve(i, expectedStatus, expectedAttempts) => ResolveKeeps(s, i, expectedStatus, expectedAttempts);
    case Elsewhere(writes) => RowsAlone(s, s.rows + writes);
  }

  lemma RowsAlone(s: World, rows: Rows)
    requires Inv(s)
    ensures Inv(s.(rows := rows))
  {
    hide OneOpen, KeysUnique, IntentsInv, WorkersInv, CallsInv, TargetsInv;
  }

  // ---------------------------------------------------------------- whole runs

  /** An intent whose outcome is settled is not touched again, and no intent loses its identity. */
  ghost predicate IntentsLater(before: Intents, after: Intents) {
    forall i :: i in before ==>
      i in after && Evolves(before[i], after[i]) && (!Blocking(before[i].status) ==> after[i] == before[i])
  }

  ghost predicate Superseded(s: World, id: nat) { Lost(s.workers, s.holder, id) }

  /** Another worker has claimed the intent of worker `id`. */
  ghost predicate Lost(workers: map<nat, Worker>, holder: map<nat, nat>, id: nat) {
    id in workers && workers[id].intent in holder && holder[workers[id].intent] != id
  }

  ghost predicate WorkersLater(workers: map<nat, Worker>, holder: map<nat, nat>,
                               after: map<nat, Worker>, afterHolder: map<nat, nat>) {
    && (forall id :: id in workers ==> id in after && after[id].intent == workers[id].intent)
    && (forall id :: Lost(workers, holder, id) ==> Lost(after, afterHolder, id))
  }

  ghost predicate Later(s: World, t: World) {
    && IntentsLater(s.intents, t.intents) && s.now <= t.now && s.calls <= t.calls
    && WorkersLater(s.workers, s.holder, t.workers, t.holder)
  }

  lemma SameIntents(intents: Intents)
    ensures IntentsLater(intents, intents)
  {
  }

  lemma OneIntentLater(intents: Intents, i: nat, y: Intent)
    requires i !in intents || (Evolves(intents[i], y) && (Blocking(intents[i].status) || y == intents[i]))
    ensures IntentsLater(intents, intents[i := y])
  {
    SameIntents(intents);
    hide Evolves, Blocking;
  }

  lemma WorkerMoved(workers: map<nat, Worker>, holder: map<nat, nat>, id: nat, w: Worker)
    requires id in workers && w.intent == workers[id].intent
    ensures WorkersLater(workers, holder, workers[id := w], holder)
  {
  }

  lemma WorkerJoined(workers: map<nat, Worker>, holder: map<nat, nat>, id: nat, w: Worker)
    requires id !in workers
    ensures WorkersLater(workers, holder, workers[id := w], holder[w.intent := id])
  {
  }

  lemma SameWorkers(workers: map<nat, Worker>, holder: map<nat, nat>)
    ensures WorkersLater(workers, holder, workers, holder)
  {
  }

  lemma CommitLater(s: World, id: nat, change: Change, w: Worker)
    requires id in s.workers && s.workers[id].intent in s.intents && w.intent == s.workers[id].intent
    requires Evolves(s.intents[w.intent], change.intent) && Blocking(s.intents[w.intent].status)
    ensures Later(s, s.(intents := s.intents[w.intent := change.intent], rows := change.rows, workers := s.workers[id := w]))
  {
    hide IntentsLater, WorkersLater, Evolves;
    OneIntentLater(s.intents, w.intent, change.intent);
    WorkerMoved(s.workers, s.holder, id, w);
  }

  lemma PerformParts(s: World, id: nat, section: Section)
    requires Inv(s) && Enabled(s, Perform(id, section))
    ensures id in s.workers && s.workers[id].intent in s.intents
    ensures var w := s.workers[id]; var x := s.intents[w.intent];
      Runs(w, x.operation, |x.targets|, section) && AttemptsBounded(x, s.now)
  {
    hide Runs, AttemptsBounded;
  }

  lemma AfterSame(w: Worker, section: Section, x: Intent)
    ensures After(w, section, x).intent == w.intent
  {
  }

  lemma PerformLater(s: World, id: nat, section: Section)
    requires Inv(s) && Enabled(s, Perform(id, section))
    ensures Later(s, PerformStep(s, id, section))
  {
    hide Inv, Enabled, Later, Runs, Effect, Evolves, AttemptsBounded, After;
    PerformParts(s, id, section);
    LaterReflexive(s);
    var w := s.workers[id];
    var x := s.intents[w.intent];
    if FenceHolds(s.intents, w) && Effect(x, s.rows, w, section, s.now).Some? {
      EffectEvolves(x, s.rows, w, section, s.now);
      var change := Effect(x, s.rows, w, section, s.now).value;
      AfterSame(w, section, change.intent);
      CommitLater(s, id, change, After(w, section, change.intent));
    }
  }

  lemma ClaimLater(s: World, w: nat, i: nat)
    requires Inv(s) && w !in s.workers && i in s.intents
    ensures Later(s, ClaimStep(s, w, i))
  {
    SameIntents(s.intents);
    SameWorkers(s.workers, s.holder);
    var x := s.intents[i];
    assert AttemptsBounded(x, s.now) && TargetsTell(x);
    hide Inv, IntentsLater, WorkersLater, TargetsTell, Evolves, AttemptsBounded, ClaimRecovery;
    if Blocking(x.status) {
      ClaimEvolves(x, s.now);
      OneIntentLater(s.intents, i, ClaimRecovery(x, s.now).1);
      WorkerJoined(s.workers, s.holder, w, Claimer(x, s.now, i));
    }
  }

  lemma ResolveLater(s: World, i: nat, expectedStatus: Status, expectedAttempts: nat)
    requires Inv(s)
    ensures Later(s, ResolveStep(s, i, expectedStatus, expectedAttempts))
  {
    SameIntents(s.intents);
    SameWorkers(s.workers, s.holder);
    hide IntentsLater, WorkersLater, OneOpen, KeysUnique, WorkersInv, CallsInv, TargetsInv;
    if i in s.intents && Resolvable(s.intents[i], s.now, expectedStatus, expectedAttempts) {
      assert AttemptsBounded(s.intents[i], s.now);
      OneIntentLater(s.intents, i, Fail(s.intents[i].(event := EventFailed), Failed, s.now));
    }
  }

  lemma CreateLater(s: World, w: nat, i: nat, r: Request)
    requires w !in s.workers && i !in s.intents
    ensures Later(s, CreateStep(s, w, i, r))
  {
    SameIntents(s.intents);
    SameWorkers(s.workers, s.holder);
    hide IntentsLater, WorkersLater, Admits, RowsBefore, AddTargets;
    OneIntentLater(s.intents, i, NewIntent(r, s.now));
    WorkerJoined(s.workers, s.holder, w, Worker(i, 1, None, true, RowsBefore(s.rows, r), false, 0, false, false));
  }

  lemma StepLater(s: World, e: Event)
    requires Inv(s) && Enabled(s, e)
    ensures Later(s, Step(s, e))
  {
    hide Inv, IntentsLater, WorkersLater, PerformStep, ClaimStep, CreateStep, ResolveStep;
    match e
    case Perform(id, section) => PerformLater(s, id, section);
    case Claim(w, i) => ClaimLater(s, w, i);
    case Create(w, i, r) => CreateLater(s, w, i, r);
    case Resolve(i, expectedStatus, expectedAttempts) => ResolveLater(s, i, expectedStatus, expectedAttempts);
    case CallAdd(w) =>
      SameIntents(s.intents);
      WorkerMoved(s.workers, s.holder, w, s.workers[w].(called := true));
    case _ =>
      SameIntents(s.intents);
      SameWorkers(s.workers, s.holder);
  }

  lemma LaterTransitive(a: World, b: World, c: World)
    requires Later(a, b) && Later(b, c)
    ensures Later(a, c)
  {
    hide Lost;
  }

  lemma LaterReflexive(a: World)
    ensures Later(a, a)
  {
    SameIntents(a.intents);
  }

  /** Every run keeps the invariant and moves every intent, every token and the list of upstream adds forward only. */
  lemma {:induction false} RunKeeps(s: World, es: seq<Event>, t: World)
    requires Inv(s) && Run(s, es, t)
    ensures Inv(t) && Later(s, t)
    decreases |es|
  {
    if es == [] {
      LaterReflexive(s);
    } else {
      hide Inv, Later, Step, Enabled;
      StepKeeps(s, es[0]);
      StepLater(s, es[0]);
      RunKeeps(Step(s, es[0]), es[1..], t);
      LaterTransitive(s, Step(s, es[0]), t);
    }
  }

  // ---------------------------------------------------------------- what the protocol promises

  /** Over every run, a scope never has two intents whose outcome is open. */
  lemma OneOpenPerScope(s: World, es: seq<Event>, t: World, i: nat, j: nat)
    requires Inv(s) && Run(s, es, t) && i in t.intents && j in t.intents && i != j
    requires t.intents[i].scope == t.intents[j].scope
    ensures !Blocking(t.intents[i].status) || !Blocking(t.intents[j].status)
  {
    RunKeeps(s, es, t);
    hide Run, Later, KeysUnique, IntentsInv, WorkersInv, CallsInv, TargetsInv;
  }

  /** An intent that is completed, failed or partial stays exactly as it is. */
  lemma TerminalForever(s: World, es: seq<Event>, t: World, i: nat)
    requires Inv(s) && Run(s, es, t) && i in s.intents && !Blocking(s.intents[i].status)
    ensures i in t.intents && t.intents[i] == s.intents[i]
  {
    RunKeeps(s, es, t);
    hide Run, Inv, Evolves, WorkersLater;
  }

  /** A worker whose intent was claimed by another commits nothing any more: no row, target, event or status. */
  lemma SupersededCommitsNothing(s: World, es: seq<Event>, t: World, id: nat, section: Section)
    requires Inv(s) && Run(s, es, t) && Superseded(s, id) && Enabled(t, Perform(id, section))
    ensures Step(t, Perform(id, section)) == t
  {
    hide Run, Later, Inv, Step, Runs;
    RunKeeps(s, es, t);
    LaterLost(s, t, id);
    FenceExact(t, id);
    FencedOff(t, id, section);
  }

  lemma FencedOff(s: World, id: nat, section: Section)
    requires Enabled(s, Perform(id, section)) && !FenceHolds(s.intents, s.workers[id])
    ensures Step(s, Perform(id, section)) == s
  {
    hide Runs, Effect;
  }

  lemma LaterLost(s: World, t: World, id: nat)
    requires Later(s, t) && Superseded(s, id)
    ensures Superseded(t, id)
  {
    hide IntentsLater;
  }

  /** What changes the tables at a section is the worker that created or last claimed its intent, while it is active. */
  lemma OnlyHolderCommits(s: World, id: nat, section: Section)
    requires Inv(s) && Enabled(s, Perform(id, section)) && Step(s, Perform(id, section)) != s
    ensures var i := s.workers[id].intent;
      s.intents[i].status.Active? && Holds(s.holder, i, id)
  {
    hide Inv, Runs, Effect;
    FenceExact(s, id);
  }

  /** An operator settles an intent only when nobody's fence holds, and the verdict is final. */
  lemma ResolveIsFinal(s: World, i: nat, expectedStatus: Status, expectedAttempts: nat, es: seq<Event>, t: World)
    requires Inv(s) && i in s.intents && Resolvable(s.intents[i], s.now, expectedStatus, expectedAttempts)
    requires Run(Step(s, Resolve(i, expectedStatus, expectedAttempts)), es, t)
    ensures forall id :: id in s.workers && s.workers[id].intent == i ==> !FenceHolds(s.intents, s.workers[id])
    ensures i in t.intents && t.intents[i] == Fail(s.intents[i].(event := EventFailed), Failed, s.now)
  {
    StepKeeps(s, Resolve(i, expectedStatus, expectedAttempts));
    hide Inv, Run;
    TerminalForever(Step(s, Resolve(i, expectedStatus, expectedAttempts)), es, t, i);
  }

  /** Upstream is asked to add at most once for a scope and idempotency key, and only for a committed intent. */
  lemma AddCalledOnce(s: World, es: seq<Event>, t: World, a: nat, b: nat)
    requires Inv(s) && Run(s, es, t) && a < |t.calls| && b < |t.calls|
    ensures t.calls[a] in t.intents && t.intents[t.calls[a]].operation.Add?
    ensures t.calls[b] in t.intents && (SameKey(t.intents[t.calls[a]], t.intents[t.calls[b]]) ==> a == b)
    ensures s.calls <= t.calls
  {
    RunKeeps(s, es, t);
    hide Run, OneOpen, IntentsInv, WorkersInv, TargetsInv, IntentsLater, WorkersLater;
  }

  /** The reply under a used key is decided by its one intent. */
  lemma EntryIs(s: World, i: nat, fingerprint: string)
    requires Inv(s) && i in s.intents && s.intents[i].operation.Add?
    ensures var x := s.intents[i];
      AddEntry(s, x.scope, x.key, fingerprint) == ReuseReply(x, fingerprint, s.now, false)
  {
    hide OneOpen, IntentsInv, WorkersInv, CallsInv, TargetsInv, ReuseReply;
  }

  /** Once a key has an intent, a different request under it is refused for ever, and the same one never starts a second add. */
  lemma OtherRequestRefused(s: World, es: seq<Event>, t: World, i: nat, fingerprint: string)
    requires Inv(s) && Run(s, es, t) && i in s.intents && s.intents[i].operation.Add?
    ensures var x := s.intents[i];
      && (fingerprint != x.fingerprint ==> AddEntry(t, x.scope, x.key, fingerprint) == ConflictingRequest)
      && AddEntry(t, x.scope, x.key, fingerprint) != Fresh
      && !Admits(t, Request(x.scope, Add, x.key, fingerprint, []))
  {
    RunKeeps(s, es, t);
    hide Inv, Run, WorkersLater;
    EntryIs(t, i, fingerprint);
    hide AddEntry;
  }

  /** Once an add completed with a result, the same request gets that result for ever. */
  lemma SameRequestReplayed(s: World, es: seq<Event>, t: World, i: nat)
    requires Inv(s) && Run(s, es, t) && i in s.intents
    requires s.intents[i].operation.Add? && s.intents[i].status.Completed? && s.intents[i].result != ""
    ensures var x := s.intents[i]; AddEntry(t, x.scope, x.key, x.fingerprint) == Replay(x.result)
  {
    TerminalForever(s, es, t, i);
    RunKeeps(s, es, t);
    hide Inv, Run, Later;
    EntryIs(t, i, s.intents[i].fingerprint);
    hide AddEntry;
  }

  /** Completed means every target is done; partial means all were gone through and some, not all, are done. */
  lemma VerdictFitsTargets(s: World, es: seq<Event>, t: World, i: nat)
    requires Inv(s) && Run(s, es, t) && i in t.intents
    ensures t.intents[i].status.Completed? ==> CountTargets(t.intents[i].targets, Succeeded) == |t.intents[i].targets|
    ensures t.intents[i].status.Partial? ==>
      && t.intents[i].operation.EntityDelete? && CountTargets(t.intents[i].targets, Succeeded) > 0
      && CountTargets(t.intents[i].targets, Refused) > 0
      && CountTargets(t.intents[i].targets, Succeeded) + CountTargets(t.intents[i].targets, Refused) == |t.intents[i].targets|
  {
    RunKeeps(s, es, t);
    var targets := t.intents[i].targets;
    assert TargetsTell(t.intents[i]);
    hide Inv, Run, Later;
    CountsAdd(targets);
    CountIs(targets, Waiting);
    CountIs(targets, Succeeded);
    CountIs(targets, Refused);
  }

  lemma {:induction false} CountsAdd(targets: seq<Target>)
    ensures CountTargets(targets, Waiting) + CountTargets(targets, Succeeded) + CountTargets(targets, Refused) == |targets|
  {
    if targets != [] {
      CountsAdd(targets[1..]);
    }
  }

  /** Recovery claims an intent twice at most, except that an exhausted add may be observed again. */
  lemma ClaimsBounded(s: World, w: nat, i: nat)
    requires Inv(s) && w !in s.workers && i in s.intents && w in ClaimStep(s, w, i).workers
    ensures s.intents[i].attempts < MAX_ATTEMPTS || ObservesExhaustedAdd(s.intents[i])
    ensures ClaimStep(s, w, i).intents[i].attempts <= MAX_ATTEMPTS
  {
    assert AttemptsBounded(s.intents[i], s.now);
    hide Inv;
  }
}
