// What each section of the intent protocol commits, said of the tables: which
// targets it finishes, which rows it writes or deletes and with what content, and
// how it leaves the intent, its event and its lease.
module MutationIntentEffects {
  import opened MutationIntents
  import opened MutationIntentTheorems
  import opened Wrappers

  const ATTEMPTS := 3
  const MICROSECONDS := 300_000_000

  // ---------------------------------------------------------------- rows

  function KeyOf(scope: Scope, memory: string): RowKey { RowKey(scope.project, memory) }

  /** What the records say of a memory: the last one counts. */
  function Latest(records: seq<Record>, memory: string): Option<string> {
    if records == [] then None
    else
      var later := Latest(records[1..], memory);
      if later.None? && records[0].memory == memory then Some(records[0].content) else later
  }

  function LatestAt(records: seq<Record>, scope: Scope, k: RowKey): Option<string> {
    if k.project == scope.project then Latest(records, k.memory) else None
  }

  /** Each memory of the records has a live row of the application with what they say of it; no other row is touched. */
  ghost predicate Written(rows: Rows, after: Rows, scope: Scope, records: seq<Record>, now: int) {
    forall k ::
      var content := LatestAt(records, scope, k);
      && (k in after <==> content.Some? || k in rows)
      && (k in after ==> after[k] == if content.Some? then Row(scope.app, true, content.value, now) else rows[k])
  }

  lemma {:induction false} WrittenIs(rows: Rows, scope: Scope, records: seq<Record>, now: int)
    ensures Written(rows, Upsert(rows, scope, records, now), scope, records, now)
    decreases |records|
  {
    if records != [] {
      WrittenIs(rows[RowKey(scope.project, records[0].memory) := Row(scope.app, true, records[0].content, now)], scope, records[1..], now);
    }
  }

  /** Exactly the live rows of these memories in the project are dead; nothing else about any row changes. */
  ghost predicate Deleted(rows: Rows, after: Rows, project: string, memories: set<string>) {
    && after.Keys == rows.Keys
    && forall k :: k in rows ==> after[k] == if k.project == project && k.memory in memories then rows[k].(live := false) else rows[k]
  }

  lemma {:induction false} DeletedAre(rows: Rows, project: string, ids: seq<string>)
    ensures Deleted(rows, DeleteRows(rows, project, ids), project, set m | m in ids)
    decreases |ids|
  {
    if ids != [] {
      DeletedAre(DeleteRow(rows, project, ids[0]), project, ids[1..]);
      assert (set m | m in ids) == {ids[0]} + set m | m in ids[1..];
    }
  }

  lemma DeletedOne(rows: Rows, project: string, memory: string)
    ensures Deleted(rows, DeleteRow(rows, project, memory), project, {memory})
  {
  }

  // ---------------------------------------------------------------- targets

  predicate Waits(targets: seq<Target>, memory: string) {
    exists k :: 0 <= k < |targets| && targets[k] == Target(memory, Waiting)
  }

  lemma {:induction false} WaitingAre(targets: seq<Target>, missing: set<string>)
    ensures forall m :: m in WaitingIn(targets, missing) <==> Waits(targets, m) && m in missing
  {
    if targets != [] {
      WaitingAre(targets[1..], missing);
      forall m ensures Waits(targets, m) <==> targets[0] == Target(m, Waiting) || Waits(targets[1..], m) {
        if Waits(targets[1..], m) {
          var k :| 0 <= k < |targets[1..]| && targets[1..][k] == Target(m, Waiting);
          assert targets[k + 1] == Target(m, Waiting);
        }
        if k :| 0 <= k < |targets| && targets[k] == Target(m, Waiting) && k > 0 {
          assert targets[1..][k - 1] == Target(m, Waiting);
        }
      }
    }
  }

  /** The targets are the memories, each once and in the order in which they first come up, with this status. */
  ghost predicate TargetsFor(targets: seq<Target>, ids: seq<string>, status: TargetStatus) {
    && (forall k :: 0 <= k < |targets| ==> targets[k].status == status && targets[k].memory in ids)
    && (forall m :: m in ids ==> HasTarget(targets, m))
    && (forall j, k :: 0 <= j < k < |targets| ==> targets[j].memory != targets[k].memory)
  }

  function AddOne(targets: seq<Target>, id: string, status: TargetStatus): seq<Target> {
    if HasTarget(targets, id) then targets else targets + [Target(id, status)]
  }

  lemma AddOneFor(targets: seq<Target>, done: seq<string>, id: string, status: TargetStatus)
    requires TargetsFor(targets, done, status)
    ensures TargetsFor(AddOne(targets, id, status), done + [id], status)
  {
    var more := AddOne(targets, id, status);
    forall m | m in done + [id] ensures HasTarget(more, m) {
      if m in done {
        var k :| 0 <= k < |targets| && targets[k].memory == m;
        assert more[k].memory == m;
      } else if more != targets {
        assert more[|targets|].memory == m;
      }
    }
    assert forall k :: 0 <= k < |targets| ==> more[k] == targets[k];
  }

  lemma {:induction false} AddTargetsFor(targets: seq<Target>, done: seq<string>, ids: seq<string>, status: TargetStatus)
    requires TargetsFor(targets, done, status)
    ensures TargetsFor(AddTargets(targets, ids, status), done + ids, status)
    decreases |ids|
  {
    hide TargetsFor, HasTarget;
    if ids == [] {
      assert done + ids == done;
    } else {
      AddOneFor(targets, done, ids[0], status);
      AddTargetsFor(AddOne(targets, ids[0], status), done + [ids[0]], ids[1..], status);
      assert (done + [ids[0]]) + ids[1..] == done + ids;
    }
  }

  // ---------------------------------------------------------------- what a section leaves

  /** The intent is active, and carries the worker's token. */
  predicate Holding(s: World, id: nat) {
    && id in s.workers && s.workers[id].intent in s.intents
    && var w := s.workers[id]; var x := s.intents[w.intent];
      x.status.Active? && x.attempts == w.attempt && (w.claim.Some? ==> x.updatedAt == w.claim.value)
  }

  /** Only the worker's intent, the rows and the worker itself are touched, and the worker goes on only while the intent is active. */
  ghost predicate Wrote(s: World, t: World, id: nat) {
    && id in s.workers && id in t.workers && s.workers[id].intent in t.intents
    && var i := s.workers[id].intent;
      && t == s.(intents := s.intents[i := t.intents[i]], rows := t.rows, workers := s.workers[id := t.workers[id]])
      && t.workers[id].ended == !t.intents[i].status.Active?
      && t.workers[id] == s.workers[id].(ended := t.workers[id].ended, position := t.workers[id].position, broken := t.workers[id].broken)
  }

  /** The intent is closed, and will not be touched again. */
  ghost predicate Closed(x: Intent, y: Intent, status: Status, event: EventStatus, result: string, now: int) {
    y == x.(status := status, event := event, result := result, lease := None, updatedAt := now, targets := y.targets)
  }

  /** The outcome is open: recovery may try again, or no more after three attempts. */
  ghost predicate LeftOpen(x: Intent, y: Intent, event: EventStatus, now: int) {
    y == x.(status := if x.attempts >= ATTEMPTS then Exhausted else Unknown, event := event, lease := None, updatedAt := now, targets := y.targets)
  }

  /** The intent stays with its worker, for another five minutes. */
  ghost predicate Extended(x: Intent, y: Intent, now: int) {
    y == x.(lease := Some(now + MICROSECONDS), updatedAt := now, targets := y.targets)
  }

  lemma PerformIs(s: World, id: nat, section: Section)
    requires Enabled(s, Perform(id, section)) && Holding(s, id)
    ensures var w := s.workers[id]; var x := s.intents[w.intent]; var t := Step(s, Perform(id, section));
      && Runs(w, x.operation, |x.targets|, section)
      && match Effect(x, s.rows, w, section, s.now)
         case None => t == s
         case Some(change) =>
           && t.intents[w.intent] == change.intent && t.rows == change.rows && Wrote(s, t, id)
           && t.workers[id] == After(w, section, change.intent)
  {
    hide Runs, Effect;
  }

  /** Without the token a section writes nothing at all. */
  lemma Fenced(s: World, id: nat, section: Section)
    requires Enabled(s, Perform(id, section)) && !Holding(s, id)
    ensures Step(s, Perform(id, section)) == s
  {
    hide Runs, Effect;
  }

  // ---------------------------------------------------------------- adds

  lemma AddEffect(x: Intent, rows: Rows, records: seq<Record>, mark: bool, result: string, now: int)
    requires x.targets == []
    ensures match AddChange(x, rows, records, mark, result, now)
      case None => |AddTargets([], Memories(records), Succeeded)| > 5000
      case Some(change) =>
        && Closed(x, change.intent, Completed, EventSucceeded, result, now)
        && TargetsFor(change.intent.targets, Memories(records), Succeeded)
        && Written(rows, change.rows, x.scope, records, now)
  {
    hide AddTargets, Upsert, Written, TargetsFor, MarkAll;
    WrittenIs(rows, x.scope, records, now);
    assert TargetsFor([], [], Succeeded) by { NoTargets(); }
    AddTargetsFor([], [], Memories(records), Succeeded);
    assert [] + Memories(records) == Memories(records);
    MarkedAlready(AddTargets([], Memories(records), Succeeded), Memories(records));
  }

  lemma NoTargets()
    ensures TargetsFor([], [], Succeeded)
  {
  }

  lemma ActiveAdd(s: World, id: nat)
    requires Inv(s) && Holding(s, id) && s.intents[s.workers[id].intent].operation.Add?
    ensures s.intents[s.workers[id].intent].targets == []
  {
    assert TargetsTell(s.intents[s.workers[id].intent]);
  }

  /** A request or a recovery that found what its add did: every record is written and a target, and the add is complete. */
  lemma AddCommits(s: World, id: nat, section: Section)
    requires Inv(s) && Enabled(s, Perform(id, section)) && Holding(s, id) && (section.AddCommit? || section.AddObserved?)
    ensures var x, t := s.intents[s.workers[id].intent], Step(s, Perform(id, section)); var y := t.intents[s.workers[id].intent];
      || (t == s && |AddTargets([], Memories(section.records), Succeeded)| > 5000)
      || (&& Wrote(s, t, id) && Closed(x, y, Completed, EventSucceeded, section.result, s.now)
          && TargetsFor(y.targets, Memories(section.records), Succeeded)
          && Written(s.rows, t.rows, x.scope, section.records, s.now))
  {
    hide Inv, Step, Enabled, AddChange, Wrote, Written, TargetsFor, AddTargets;
    PerformIs(s, id, section);
    ActiveAdd(s, id);
    AddEffect(s.intents[s.workers[id].intent], s.rows, section.records, section.AddObserved?, section.result, s.now);
  }

  lemma MarkedAlready(targets: seq<Target>, ids: seq<string>)
    requires TargetsFor(targets, ids, Succeeded)
    ensures MarkAll(targets, Succeeded) == targets
  {
  }

  // ---------------------------------------------------------------- updates

  /** The row of the one target is live, in the application, and as the request read it. */
  predicate Same(x: Intent, rows: Rows, w: Worker) {
    && |x.targets| == 1
    && var m := x.targets[0].memory; var k := KeyOf(x.scope, m);
      m in w.before && k in rows && rows[k].live && rows[k].app == x.scope.app && rows[k] == w.before[m]
  }

  /** The row of a memory has this content now; no other row is touched. */
  ghost predicate Rewritten(rows: Rows, after: Rows, scope: Scope, memory: string, content: string, now: int) {
    after == rows[KeyOf(scope, memory) := Row(scope.app, true, content, now)]
  }

  lemma OneTarget(s: World, id: nat)
    requires Inv(s) && Holding(s, id) && (s.intents[s.workers[id].intent].operation.Update? || s.intents[s.workers[id].intent].operation.Delete?)
    ensures |s.intents[s.workers[id].intent].targets| == 1
  {
    assert TargetsTell(s.intents[s.workers[id].intent]);
  }

  lemma UpsertOne(rows: Rows, scope: Scope, r: Record, now: int)
    ensures Rewritten(rows, Upsert(rows, scope, [r], now), scope, r.memory, r.content, now)
  {
    assert [r][1..] == [];
  }

  lemma UpdateEffect(x: Intent, rows: Rows, w: Worker, section: Section, now: int)
    requires Runs(w, x.operation, |x.targets|, section) && |x.targets| == 1
    requires section.UpdateCommit? || section.UpdateObserved? || section.UpdateMissing?
    ensures match Effect(x, rows, w, section, now)
      case None => !section.UpdateObserved? && !Same(x, rows, w)
      case Some(change) =>
        var y, m := change.intent, x.targets[0].memory;
        && (section.UpdateObserved? || Same(x, rows, w))
        && y.targets == [Target(m, if section.UpdateMissing? then Refused else Succeeded)]
        && if section.UpdateMissing? then
             Closed(x, y, Failed, EventFailed, x.result, now) && Deleted(rows, change.rows, x.scope.project, {m})
           else
             Closed(x, y, Completed, EventSucceeded, section.result, now)
             && Rewritten(rows, change.rows, x.scope, m, section.content, now)
  {
    if !section.UpdateMissing? { UpsertOne(rows, x.scope, Record(x.targets[0].memory, section.content), now); }
    DeletedOne(rows, x.scope.project, x.targets[0].memory);
    hide Deleted;
  }

  /**
   * An update that upstream confirmed gives the row its content; one whose memory is missing upstream fails and deletes the
   * row.  A request does so only if its row is as it read it; recovery does not ask.
   */
  lemma UpdateCommits(s: World, id: nat, section: Section)
    requires Inv(s) && Enabled(s, Perform(id, section)) && Holding(s, id)
    requires section.UpdateCommit? || section.UpdateObserved? || section.UpdateMissing?
    ensures var w := s.workers[id]; var x, t := s.intents[w.intent], Step(s, Perform(id, section)); var y := t.intents[w.intent];
      && |x.targets| == 1
      && var m := x.targets[0].memory;
        if !section.UpdateObserved? && !Same(x, s.rows, w) then t == s
        else
          && Wrote(s, t, id) && y.targets == [Target(m, if section.UpdateMissing? then Refused else Succeeded)]
          && if section.UpdateMissing? then
               Closed(x, y, Failed, EventFailed, x.result, s.now) && Deleted(s.rows, t.rows, x.scope.project, {m})
             else
               Closed(x, y, Completed, EventSucceeded, section.result, s.now)
               && Rewritten(s.rows, t.rows, x.scope, m, section.content, s.now)
  {
    assert s.intents[s.workers[id].intent].operation.Update?;
    hide Inv, Step, Enabled, Effect, Wrote, Deleted, Rewritten, Closed, Same, Runs;
    OneTarget(s, id);
    PerformIs(s, id, section);
    UpdateEffect(s.intents[s.workers[id].intent], s.rows, s.workers[id], section, s.now);
  }

  // ---------------------------------------------------------------- deletes

  lemma DeleteEffect(x: Intent, rows: Rows, w: Worker, section: Section, now: int)
    requires Runs(w, x.operation, |x.targets|, section) && |x.targets| == 1 && section.DeleteCommit?
    ensures match Effect(x, rows, w, section, now)
      case None => !Same(x, rows, w)
      case Some(change) =>
        && Same(x, rows, w) && change.intent.targets == [Target(x.targets[0].memory, Succeeded)]
        && Closed(x, change.intent, Completed, if section.missing then EventFailed else EventSucceeded, section.result, now)
        && Deleted(rows, change.rows, x.scope.project, {x.targets[0].memory})
  {
    DeletedOne(rows, x.scope.project, x.targets[0].memory);
    hide Deleted;
  }

  /** A delete that upstream answered is complete and its row dead, if the row is as the request read it. */
  lemma DeleteCommits(s: World, id: nat, section: Section)
    requires Inv(s) && Enabled(s, Perform(id, section)) && Holding(s, id) && section.DeleteCommit?
    ensures var w := s.workers[id]; var x, t := s.intents[w.intent], Step(s, Perform(id, section)); var y := t.intents[w.intent];
      && |x.targets| == 1
      && var m := x.targets[0].memory;
        if !Same(x, s.rows, w) then t == s
        else
          && Wrote(s, t, id) && y.targets == [Target(m, Succeeded)]
          && Closed(x, y, Completed, if section.missing then EventFailed else EventSucceeded, section.result, s.now)
          && Deleted(s.rows, t.rows, x.scope.project, {m})
  {
    assert s.intents[s.workers[id].intent].operation.Delete?;
    hide Inv, Step, Enabled, Effect, Wrote, Deleted, Closed, Same, Runs;
    OneTarget(s, id);
    PerformIs(s, id, section);
    DeleteEffect(s.intents[s.workers[id].intent], s.rows, s.workers[id], section, s.now);
  }

  /** A delete whose targets are all gone through: complete, unless some were refused; then partial if any was done. */
  ghost predicate Concluded(x: Intent, y: Intent, result: string, now: int) {
    if !x.operation.EntityDelete? || NoneIs(y.targets, Refused) then Closed(x, y, Completed, EventSucceeded, result, now)
    else Closed(x, y, if NoneIs(y.targets, Succeeded) then Failed else Partial, EventFailed, result, now)
  }

  lemma SettledConcludes(x: Intent, targets: seq<Target>, result: string, now: int)
    ensures Concluded(x, Settled(x.(targets := targets), result, now), result, now) && Settled(x.(targets := targets), result, now).targets == targets
  {
    CountIs(targets, Refused);
    CountIs(targets, Succeeded);
    hide CountTargets, NoneIs;
  }

  /** Exactly the waiting targets that upstream does not have any more are done. */
  ghost predicate DoneIfAbsent(before: seq<Target>, after: seq<Target>, absent: set<string>) {
    && |after| == |before|
    && forall k :: 0 <= k < |before| ==>
      after[k] == if before[k].status == Waiting && before[k].memory in absent then Target(before[k].memory, Succeeded) else before[k]
  }

  ghost predicate ObservedDelete(x: Intent, rows: Rows, y: Intent, after: Rows, absent: set<string>, result: string, now: int) {
    && DoneIfAbsent(x.targets, y.targets, absent)
    && Deleted(rows, after, x.scope.project, set k: nat | k < |x.targets| && x.targets[k].status == Waiting && x.targets[k].memory in absent :: x.targets[k].memory)
    && if exists k :: 0 <= k < |x.targets| && x.targets[k].status == Waiting && x.targets[k].memory !in absent
       then LeftOpen(x, y, EventFailed, now) else Concluded(x, y, result, now)
  }

  lemma DeletedSame(rows: Rows, after: Rows, project: string, a: set<string>, b: set<string>)
    requires Deleted(rows, after, project, a) && a == b
    ensures Deleted(rows, after, project, b)
  {
  }

  lemma GoneMemories(targets: seq<Target>, absent: set<string>)
    ensures (set m | m in WaitingIn(targets, absent)) ==
      set k: nat | k < |targets| && targets[k].status == Waiting && targets[k].memory in absent :: targets[k].memory
  {
    WaitingAre(targets, absent);
  }

  lemma ObservedEffect(x: Intent, rows: Rows, absent: set<string>, result: string, now: int)
    ensures var change := DeleteObservedChange(x, rows, absent, result, now);
      ObservedDelete(x, rows, change.intent, change.rows, absent, result, now)
  {
    hide CountTargets, DeleteRows, WaitingIn, NoneIs, Settled, Concluded, Deleted;
    var targets := MarkMissing(x.targets, absent);
    CountIs(targets, Waiting);
    assert NoneIs(targets, Waiting) <==> !exists k :: 0 <= k < |x.targets| && x.targets[k].status == Waiting && x.targets[k].memory !in absent by {
      NoneWaiting(x.targets, absent);
    }
    SettledConcludes(x, targets, result, now);
    DeletedAre(rows, x.scope.project, WaitingIn(x.targets, absent));
    GoneMemories(x.targets, absent);
  }

  lemma NoneWaiting(targets: seq<Target>, absent: set<string>)
    ensures NoneIs(MarkMissing(targets, absent), Waiting) <==>
      !exists k :: 0 <= k < |targets| && targets[k].status == Waiting && targets[k].memory !in absent
  {
    var after := MarkMissing(targets, absent);
    if k :| 0 <= k < |targets| && targets[k].status == Waiting && targets[k].memory !in absent {
      assert after[k].status == Waiting;
    }
  }

  /**
   * Recovery of a delete, once it knows which of its targets upstream does not have: exactly the waiting ones among them are
   * done and their rows dead; if another still waits, the outcome stays open, and otherwise it is concluded.
   */
  lemma ObservedDeletes(s: World, id: nat, absent: set<string>, result: string)
    requires Enabled(s, Perform(id, DeleteObserved(absent, result))) && Holding(s, id)
    ensures var w := s.workers[id]; var x, t := s.intents[w.intent], Step(s, Perform(id, DeleteObserved(absent, result)));
      Wrote(s, t, id) && ObservedDelete(x, s.rows, t.intents[w.intent], t.rows, absent, result, s.now)
  {
    hide Step, Enabled, Wrote, ObservedDelete, DeleteObservedChange, Runs;
    PerformIs(s, id, DeleteObserved(absent, result));
    ObservedEffect(s.intents[s.workers[id].intent], s.rows, absent, result, s.now);
  }

  // ---------------------------------------------------------------- entity deletes, batch by batch

  /** The row of a target is live, in the application, and was last written when the request read it. */
  predicate Untouched(x: Intent, rows: Rows, w: Worker, m: string) {
    var k := KeyOf(x.scope, m);
    k in rows && rows[k].live && rows[k].app == x.scope.app && m in w.before && rows[k].updatedAt == w.before[m].updatedAt
  }

  /** The rows that upstream deleted in a batch are untouched, and no memory comes up twice among them. */
  ghost predicate BatchFits(x: Intent, rows: Rows, w: Worker, deleted: seq<bool>, n: nat)
    requires w.position + |deleted| <= |x.targets|
  {
    forall k :: n <= k < |deleted| && deleted[k] ==>
      && Untouched(x, rows, w, x.targets[w.position + k].memory)
      && forall j :: n <= j < k && deleted[j] ==> x.targets[w.position + j].memory != x.targets[w.position + k].memory
  }

  lemma {:induction false} BatchFitsIff(x: Intent, rows: Rows, w: Worker, deleted: seq<bool>, n: nat)
    requires w.position + |deleted| <= |x.targets| && n <= |deleted|
    ensures BatchUnchanged(x, rows, w, deleted, n) <==> BatchFits(x, rows, w, deleted, n)
    decreases |deleted| - n
  {
    if n < |deleted| {
      var m := x.targets[w.position + n].memory;
      var rest := if deleted[n] then DeleteRow(rows, x.scope.project, m) else rows;
      BatchFitsIff(x, rest, w, deleted, n + 1);
      if deleted[n] {
        BatchFirst(x, rows, w, deleted, n);
      } else {
        BatchSkip(x, rows, w, deleted, n);
      }
    }
  }

  lemma BatchSkip(x: Intent, rows: Rows, w: Worker, deleted: seq<bool>, n: nat)
    requires w.position + |deleted| <= |x.targets| && n < |deleted| && !deleted[n]
    ensures BatchFits(x, rows, w, deleted, n) <==> BatchFits(x, rows, w, deleted, n + 1)
  {
    hide Untouched;
  }

  lemma BatchFirst(x: Intent, rows: Rows, w: Worker, deleted: seq<bool>, n: nat)
    requires w.position + |deleted| <= |x.targets| && n < |deleted| && deleted[n]
    ensures var m := x.targets[w.position + n].memory;
      BatchFits(x, rows, w, deleted, n) <==>
        Untouched(x, rows, w, m) && BatchFits(x, DeleteRow(rows, x.scope.project, m), w, deleted, n + 1)
  {
    var m := x.targets[w.position + n].memory;
    var rest := DeleteRow(rows, x.scope.project, m);
    forall o: string ensures Untouched(x, rest, w, o) <==> Untouched(x, rows, w, o) && (o != m || !Untouched(x, rows, w, m)) {
    }
    hide Untouched, DeleteRow;
    if Untouched(x, rows, w, m) && BatchFits(x, rest, w, deleted, n + 1) {
      forall k | n <= k < |deleted| && deleted[k]
        ensures Untouched(x, rows, w, x.targets[w.position + k].memory)
        ensures forall j :: n <= j < k && deleted[j] ==> x.targets[w.position + j].memory != x.targets[w.position + k].memory
      {
        if k > n { assert Untouched(x, rest, w, x.targets[w.position + k].memory); }
      }
    }
  }

  /** The memories that upstream deleted, from number `n` of a batch on. */
  function BatchGone(x: Intent, w: Worker, deleted: seq<bool>, n: nat): set<string>
    requires w.position + |deleted| <= |x.targets|
  {
    set k: nat | n <= k < |deleted| && deleted[k] :: x.targets[w.position + k].memory
  }

  lemma BatchGoneFrom(x: Intent, w: Worker, deleted: seq<bool>, n: nat)
    requires w.position + |deleted| <= |x.targets| && n < |deleted|
    ensures BatchGone(x, w, deleted, n) == (if deleted[n] then {x.targets[w.position + n].memory} else {}) + BatchGone(x, w, deleted, n + 1)
  {
  }

  lemma DeletedMore(rows: Rows, mid: Rows, after: Rows, project: string, memory: string, ms: set<string>)
    requires Deleted(rows, mid, project, {memory}) && Deleted(mid, after, project, ms)
    ensures Deleted(rows, after, project, {memory} + ms)
  {
  }

  lemma {:induction false} BatchDeletes(x: Intent, rows: Rows, w: Worker, deleted: seq<bool>, n: nat)
    requires w.position + |deleted| <= |x.targets| && n <= |deleted|
    ensures Deleted(rows, BatchRows(x, rows, w, deleted, n), x.scope.project, BatchGone(x, w, deleted, n))
    decreases |deleted| - n
  {
    if n < |deleted| {
      hide Deleted, BatchGone, DeleteRow;
      var m := x.targets[w.position + n].memory;
      var mid := if deleted[n] then DeleteRow(rows, x.scope.project, m) else rows;
      BatchDeletes(x, mid, w, deleted, n + 1);
      BatchGoneFrom(x, w, deleted, n);
      if deleted[n] {
        DeletedOne(rows, x.scope.project, m);
        DeletedMore(rows, mid, BatchRows(x, mid, w, deleted, n + 1), x.scope.project, m, BatchGone(x, w, deleted, n + 1));
      } else {
        assert {} + BatchGone(x, w, deleted, n + 1) == BatchGone(x, w, deleted, n + 1);
      }
    }
  }

  /** The targets of the batch are done or refused, as upstream answered; the others stay. */
  ghost predicate BatchMarked(before: seq<Target>, after: seq<Target>, position: nat, deleted: seq<bool>) {
    && |after| == |before|
    && forall k :: 0 <= k < |before| ==>
      after[k] == if position <= k < position + |deleted|
                  then Target(before[k].memory, if deleted[k - position] then Succeeded else Refused) else before[k]
  }

  lemma BatchEffect(x: Intent, rows: Rows, w: Worker, section: Section, now: int)
    requires section.EntityBatch? && Runs(w, x.operation, |x.targets|, section)
    ensures w.position + |section.deleted| <= |x.targets|
    ensures match Effect(x, rows, w, section, now)
      case None => !BatchFits(x, rows, w, section.deleted, 0)
      case Some(change) =>
        && BatchFits(x, rows, w, section.deleted, 0)
        && BatchMarked(x.targets, change.intent.targets, w.position, section.deleted) && Extended(x, change.intent, now)
        && Deleted(rows, change.rows, x.scope.project, BatchGone(x, w, section.deleted, 0))
  {
    hide BatchUnchanged, BatchRows, BatchFits, Deleted, BatchGone;
    BatchFitsIff(x, rows, w, section.deleted, 0);
    BatchDeletes(x, rows, w, section.deleted, 0);
  }

  /**
   * A batch commits whole or not at all: if every row that upstream deleted is untouched, exactly those rows are dead, the
   * targets are marked, and the request goes on behind them; if one is not, nothing is written.
   */
  lemma BatchCommits(s: World, id: nat, section: Section)
    requires Enabled(s, Perform(id, section)) && Holding(s, id) && section.EntityBatch?
    ensures var w := s.workers[id]; var x, t := s.intents[w.intent], Step(s, Perform(id, section)); var y := t.intents[w.intent];
      && w.position + |section.deleted| <= |x.targets|
      && if !BatchFits(x, s.rows, w, section.deleted, 0) then t == s
         else
           && Wrote(s, t, id) && BatchMarked(x.targets, y.targets, w.position, section.deleted) && Extended(x, y, s.now)
           && Deleted(s.rows, t.rows, x.scope.project, BatchGone(x, w, section.deleted, 0))
           && t.workers[id].position == w.position + |section.deleted| && t.workers[id].broken == section.cut
  {
    hide Step, Enabled, Effect, Wrote, Deleted, BatchFits, BatchMarked, BatchGone, Runs, Extended;
    PerformIs(s, id, section);
    BatchEffect(s.intents[s.workers[id].intent], s.rows, s.workers[id], section, s.now);
  }

  lemma FinishEffect(x: Intent, rows: Rows, w: Worker, result: string, now: int)
    requires Runs(w, x.operation, |x.targets|, EntityFinish(result))
    ensures var change := Effect(x, rows, w, EntityFinish(result), now);
      change.Some? && Concluded(x, change.value.intent, result, now) && change.value.intent.targets == x.targets && change.value.rows == rows
  {
    SettledConcludes(x, x.targets, result, now);
    assert x.(targets := x.targets) == x;
    hide Settled, Concluded;
  }

  /** After the last batch the entity delete is concluded. */
  lemma EntityConcludes(s: World, id: nat, result: string)
    requires Enabled(s, Perform(id, EntityFinish(result))) && Holding(s, id)
    ensures var w := s.workers[id]; var x, t := s.intents[w.intent], Step(s, Perform(id, EntityFinish(result)));
      && Wrote(s, t, id) && w.position == |x.targets| && t.intents[w.intent].targets == x.targets
      && Concluded(x, t.intents[w.intent], result, s.now) && t.rows == s.rows
  {
    assert s.workers[id].position == |s.intents[s.workers[id].intent].targets|;
    hide Step, Enabled, Effect, Wrote, Concluded, Runs;
    PerformIs(s, id, EntityFinish(result));
    FinishEffect(s.intents[s.workers[id].intent], s.rows, s.workers[id], result, s.now);
  }

  // ---------------------------------------------------------------- sections that write no memory

  /** How the remaining sections leave their intent. */
  ghost predicate Otherwise(x: Intent, y: Intent, section: Section, now: int) {
    && y.targets == x.targets
    && match section
       case NoteNoop => y == x.(noop := true, updatedAt := now)
       case RenewLease => Extended(x, y, now)
       case DeleteRenew => Extended(x, y, now)
       case ReconcileBatch(_) => Extended(x, y, now)
       case ReconcileFinish(result) => Closed(x, y, Completed, EventSucceeded, result, now)
       case RecordFailure(unknown, markEvent) =>
         var event := if markEvent then EventFailed else x.event;
         if unknown then LeftOpen(x, y, event, now) else Closed(x, y, Failed, event, x.result, now)
       case AddReceiptFailed => Closed(x, y, Failed, EventFailed, x.result, now)
       case AddObservedNoop(result) => Closed(x, y, Completed, EventSucceeded, result, now)
       case UpdateNotObserved => LeftOpen(x, y, EventFailed, now)
       case ReconcileAbort => Closed(x, y, Failed, EventFailed, x.result, now)
       case ObservationFailed => LeftOpen(x, y, EventFailed, now)
       case _ => false
  }

  predicate Plain(section: Section) {
    || section.NoteNoop? || section.RenewLease? || section.DeleteRenew? || section.ReconcileBatch? || section.ReconcileFinish?
    || section.RecordFailure? || section.AddReceiptFailed? || section.AddObservedNoop? || section.UpdateNotObserved?
    || section.ReconcileAbort? || section.ObservationFailed?
  }

  lemma PlainEffect(x: Intent, rows: Rows, w: Worker, section: Section, now: int)
    requires Runs(w, x.operation, |x.targets|, section) && Plain(section)
    ensures var change := Effect(x, rows, w, section, now);
      && change.Some? && Otherwise(x, change.value.intent, section, now)
      && change.value.rows == if section.ReconcileBatch? then rows + section.writes else rows
  {
  }

  /** The other sections touch no target, and no row but those that a reconcile was given to write. */
  lemma PlainCommits(s: World, id: nat, section: Section)
    requires Enabled(s, Perform(id, section)) && Holding(s, id) && Plain(section)
    ensures var w := s.workers[id]; var x, t := s.intents[w.intent], Step(s, Perform(id, section));
      && Wrote(s, t, id) && Otherwise(x, t.intents[w.intent], section, s.now)
      && t.rows == if section.ReconcileBatch? then s.rows + section.writes else s.rows
  {
    hide Step, Enabled, Effect, Wrote, Otherwise, Runs;
    PerformIs(s, id, section);
    PlainEffect(s.intents[s.workers[id].intent], s.rows, s.workers[id], section, s.now);
  }

  // ---------------------------------------------------------------- requests, claims and verdicts

  /** A request is admitted if nothing is open in its scope, its key is new, and its targets are there and not too many. */
  ghost predicate Admitted(s: World, r: Request) {
    && (forall i :: i in s.intents && s.intents[i].scope == r.scope ==>
          && s.intents[i].status != Active && s.intents[i].status != Unknown && s.intents[i].status != Pending && s.intents[i].status != Exhausted
          && !(s.intents[i].operation == r.operation && s.intents[i].key == r.key))
    && |AddTargets([], r.ids, Waiting)| <= 5000
    && (r.operation == Update || r.operation == Delete ==> |r.ids| == 1 && LiveIn(s.rows, r.scope, r.ids[0]))
    && (r.operation == Add || r.operation == Reconcile ==> r.ids == [])
  }

  predicate LiveIn(rows: Rows, scope: Scope, m: string) {
    KeyOf(scope, m) in rows && rows[KeyOf(scope, m)].live && rows[KeyOf(scope, m)].app == scope.app
  }

  lemma AdmittedIs(s: World, r: Request)
    ensures Admits(s, r) <==> Admitted(s, r)
  {
    hide AddTargets;
  }

  /** A new intent waits for all its targets, with five minutes for its first attempt; its request remembers the rows it read. */
  lemma Creates(s: World, w: nat, i: nat, r: Request)
    requires Enabled(s, Create(w, i, r))
    ensures var t := Step(s, Create(w, i, r));
      if !Admitted(s, r) then t == s
      else
        && t == s.(intents := t.intents, workers := t.workers, holder := s.holder[i := w])
        && t.intents == s.intents[i := t.intents[i]] && t.workers == s.workers[w := t.workers[w]]
        && var x, v := t.intents[i], t.workers[w];
          && x == Intent(r.scope, r.operation, r.key, r.fingerprint, false, Active, 1, Some(s.now + MICROSECONDS), s.now, x.targets, Open, "")
          && TargetsFor(x.targets, r.ids, Waiting) && v == Worker(i, 1, None, true, v.before, false, 0, false, false)
          && (forall m :: m in v.before <==> m in r.ids && LiveIn(s.rows, r.scope, m))
          && (forall m :: m in v.before ==> v.before[m] == s.rows[KeyOf(r.scope, m)])
  {
    AdmittedIs(s, r);
    assert TargetsFor([], [], Waiting);
    AddTargetsFor([], [], r.ids, Waiting);
    assert [] + r.ids == r.ids;
    hide Admits, Admitted, AddTargets, TargetsFor;
  }

  /** An intent can be claimed once nobody's lease on it runs and attempts are left, or to observe an exhausted add. */
  predicate Claimable(x: Intent, now: int) {
    && !(x.status == Active && x.lease.Some? && now < x.lease.value)
    && (x.attempts < ATTEMPTS || (x.operation == Add && x.status == Exhausted))
  }

  /** A claim makes the claimer the holder, of a new attempt unless it only observes; a claim too many exhausts the intent. */
  lemma Claims(s: World, w: nat, i: nat)
    requires Inv(s) && Enabled(s, Claim(w, i))
    ensures var x, t := s.intents[i], Step(s, Claim(w, i));
      if x.status == Completed || x.status == Failed || x.status == Partial then t == s
      else if Claimable(x, s.now) then
        && i in t.intents && w in t.workers
        && t == s.(intents := s.intents[i := t.intents[i]], workers := s.workers[w := t.workers[w]], holder := s.holder[i := w])
        && t.intents[i] == x.(attempts := if x.attempts < ATTEMPTS then x.attempts + 1 else x.attempts,
                              status := Active, lease := Some(s.now + MICROSECONDS), updatedAt := s.now)
        && t.workers[w] == Worker(i, t.intents[i].attempts, if x.operation == Add then Some(s.now) else None, false, map[], false, 0, false, false)
      else if x.status == Active && x.lease.Some? && s.now < x.lease.value then t == s
      else i in t.intents && t == s.(intents := s.intents[i := t.intents[i]]) && t.intents[i] == x.(status := Exhausted, lease := None, updatedAt := s.now)
  {
    assert AttemptsBounded(s.intents[i], s.now);
    hide Inv;
    assert s.intents[i := s.intents[i]] == s.intents;
  }

  /** An operator's verdict: failed, for an unresolved intent that is as the operator saw it and that nobody works on. */
  lemma Verdicts(s: World, i: nat, expectedStatus: Status, expectedAttempts: nat)
    requires Enabled(s, Resolve(i, expectedStatus, expectedAttempts))
    ensures var t := Step(s, Resolve(i, expectedStatus, expectedAttempts));
      if i in s.intents && s.intents[i].status == expectedStatus && s.intents[i].attempts == expectedAttempts
         && (expectedStatus == Unknown || expectedStatus == Exhausted)
         && !(s.intents[i].lease.Some? && s.now < s.intents[i].lease.value)
      then
        && t == s.(intents := s.intents[i := t.intents[i]])
        && Closed(s.intents[i], t.intents[i], Failed, EventFailed, s.intents[i].result, s.now) && t.intents[i].targets == s.intents[i].targets
      else t == s
  {
  }

  /** An undisturbed add of an admitted request goes through: it is recorded, called once more, and completed with its rows. */
  lemma AddGoesThrough(s: World, w: nat, i: nat, r: Request, records: seq<Record>, result: string)
    requires Inv(s) && Admitted(s, r) && r.operation.Add? && w !in s.workers && i !in s.intents
    requires |AddTargets([], Memories(records), Succeeded)| <= 5000
    ensures Enabled(s, Create(w, i, r))
    ensures var s1 := Step(s, Create(w, i, r));
      && Enabled(s1, CallAdd(w))
      && var s2 := Step(s1, CallAdd(w));
        && s2.calls == s.calls + [i] && Enabled(s2, Perform(w, AddCommit(records, result)))
        && var t := Step(s2, Perform(w, AddCommit(records, result)));
          && i in t.intents && t.intents[i].status == Completed && t.intents[i].result == result
          && TargetsFor(t.intents[i].targets, Memories(records), Succeeded) && Written(s.rows, t.rows, r.scope, records, s.now)
  {
    hide Inv, Admitted, AddTargets, TargetsFor, Written, Wrote, Closed;
    AdmittedIs(s, r);
    var s1 := Step(s, Create(w, i, r));
    StepKeeps(s, Create(w, i, r));
    var s2 := Step(s1, CallAdd(w));
    StepKeeps(s1, CallAdd(w));
    assert Holding(s2, w);
    AddCommits(s2, w, AddCommit(records, result));
    ClosedIs(s2.intents[i], Step(s2, Perform(w, AddCommit(records, result))).intents[i], Completed, EventSucceeded, result, s.now);
  }

  lemma ClosedIs(x: Intent, y: Intent, status: Status, event: EventStatus, result: string, now: int)
    ensures Closed(x, y, status, event, result, now) ==> y.status == status && y.result == result
  {
  }

  /** What a repeated add is answered: a conflict, the result, that it is under way, or that it is unresolved. */
  lemma Replies(s: World, i: nat, fingerprint: string)
    requires Inv(s) && i in s.intents && s.intents[i].operation.Add?
    ensures var x := s.intents[i];
      AddEntry(s, x.scope, x.key, fingerprint) ==
        if x.fingerprint != fingerprint then ConflictingRequest
        else if x.status == Completed && x.result != "" then Replay(x.result)
        else if x.lease.Some? && s.now < x.lease.value then InProgress
        else Unresolved
  {
    hide Inv, AddEntry;
    EntryIs(s, i, fingerprint);
  }
}
