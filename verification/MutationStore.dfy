// The tables behind the mutation protocol, changed in place: the repository
// methods and the locked sections that loop over records or targets.  A section
// that raises is rolled back.
module MutationStore {
  import opened MutationIntents
  import opened Wrappers

  lemma HasTargetMember(targets: seq<Target>, memory: string)
    ensures HasTarget(targets, memory) <==> memory in TargetMemories(targets)
  {
    forall k | 0 <= k < |targets| ensures TargetMemories(targets)[k] == targets[k].memory {
    }
  }

  function TargetMemories(targets: seq<Target>): seq<string> {
    seq(|targets|, k requires 0 <= k < |targets| => targets[k].memory)
  }

  lemma UpsertMore(rows: Rows, scope: Scope, records: seq<Record>, n: nat, now: int)
    requires n < |records|
    ensures Upsert(rows, scope, records[..n + 1], now) ==
      Upsert(rows, scope, records[..n], now)[RowKey(scope.project, records[n].memory) := Row(scope.app, true, records[n].content, now)]
    decreases n
  {
    if n == 0 {
      assert records[..1][1..] == [];
    } else {
      assert records[..n + 1][1..] == records[1..][..n] && records[..n][1..] == records[1..][..n - 1];
      UpsertMore(rows[RowKey(scope.project, records[0].memory) := Row(scope.app, true, records[0].content, now)],
                 scope, records[1..], n - 1, now);
    }
  }

  lemma DeleteMore(rows: Rows, project: string, ids: seq<string>, id: string)
    ensures DeleteRows(rows, project, ids + [id]) == DeleteRow(DeleteRows(rows, project, ids), project, id)
    decreases |ids|
  {
    if ids == [] {
      assert (ids + [id])[1..] == [];
    } else {
      assert (ids + [id])[1..] == ids[1..] + [id];
      DeleteMore(DeleteRow(rows, project, ids[0]), project, ids[1..], id);
    }
  }

  lemma WaitingMore(targets: seq<Target>, missing: set<string>, n: nat)
    requires n < |targets|
    ensures WaitingIn(targets[..n + 1], missing) ==
      WaitingIn(targets[..n], missing) + if targets[n].status.Waiting? && targets[n].memory in missing then [targets[n].memory] else []
  {
    if n == 0 {
      assert targets[..1][1..] == [];
    } else {
      assert targets[..n + 1][1..] == targets[1..][..n] && targets[..n][1..] == targets[1..][..n - 1];
      WaitingMore(targets[1..], missing, n - 1);
    }
  }

  function AddSection(recovered: bool, records: seq<Record>, result: string): Section {
    if recovered then AddObserved(records, result) else AddCommit(records, result)
  }

  class Store {
    var intents: Intents
    var rows: Rows

    constructor (rows: Rows)
      ensures intents == map[] && this.rows == rows
    {
      intents := map[];
      this.rows := rows;
    }

    /** `list_blocking`, of which the callers use whether it is empty. */
    method IsBlocked(scope: Scope) returns (blocked: bool)
      ensures blocked == Blocked(intents, scope)
    {
      var ids := intents.Keys;
      while ids != {}
        invariant ids <= intents.Keys
        invariant forall i :: i in intents && i !in ids ==> intents[i].scope != scope || !Blocking(intents[i].status)
        decreases ids
      {
        var i :| i in ids;
        if intents[i].scope == scope && Blocking(intents[i].status) {
          return true;
        }
        ids := ids - {i};
      }
      return false;
    }

    /** `find_by_operation_key`. */
    method FindByOperationKey(scope: Scope, operation: Operation, key: string) returns (found: Option<nat>)
      ensures found.None? <==> !KeyUsed(intents, scope, operation, key)
      ensures found.Some? ==>
        && found.value in intents && intents[found.value].scope == scope
        && intents[found.value].operation == operation && intents[found.value].key == key
    {
      var ids := intents.Keys;
      while ids != {}
        invariant ids <= intents.Keys
        invariant forall i :: i in intents && i !in ids ==>
          intents[i].scope != scope || intents[i].operation != operation || intents[i].key != key
        decreases ids
      {
        var i :| i in ids;
        if intents[i].scope == scope && intents[i].operation == operation && intents[i].key == key {
          return Some(i);
        }
        ids := ids - {i};
      }
      return None;
    }

    /** `add_targets`, on the targets of one intent. */
    method AddTargets(i: nat, ids: seq<string>, status: TargetStatus) returns (ok: bool)
      requires i in intents
      modifies this`intents
      ensures ok == (|MutationIntents.AddTargets(old(intents)[i].targets, ids, status)| <= MAX_TARGETS)
      ensures intents == if ok
        then old(intents)[i := old(intents)[i].(targets := MutationIntents.AddTargets(old(intents)[i].targets, ids, status))]
        else old(intents)
    {
      var targets := intents[i].targets;
      for n := 0 to |ids|
        invariant intents == old(intents)
        invariant MutationIntents.AddTargets(targets, ids[n..], status)
          == MutationIntents.AddTargets(old(intents)[i].targets, ids, status)
      {
        assert ids[n..][1..] == ids[n + 1..];
        HasTargetMember(targets, ids[n]);
        if ids[n] !in TargetMemories(targets) {
          targets := targets + [Target(ids[n], status)];
        }
      }
      ok := |targets| <= MAX_TARGETS;
      if ok {
        intents := intents[i := intents[i].(targets := targets)];
      }
    }

    method UpsertMemories(scope: Scope, records: seq<Record>, now: int)
      modifies this`rows
      ensures rows == Upsert(old(rows), scope, records, now)
    {
      for n := 0 to |records|
        invariant rows == Upsert(old(rows), scope, records[..n], now)
      {
        UpsertMore(old(rows), scope, records, n, now);
        rows := rows[RowKey(scope.project, records[n].memory) := Row(scope.app, true, records[n].content, now)];
      }
      assert records[..|records|] == records;
    }

    /** `delete_memory`. */
    method DeleteMemory(project: string, memory: string)
      modifies this`rows
      ensures rows == DeleteRow(old(rows), project, memory)
    {
      var k := RowKey(project, memory);
      if k in rows && rows[k].live {
        rows := rows[k := rows[k].(live := false)];
      }
    }

    /** The section from the last check of `recover_pending_mutations` to the commit of a new intent. */
    method CreateIntent(i: nat, r: Request, now: int) returns (created: bool)
      requires i !in intents
      modifies this`intents
      ensures created == Admits(World(old(intents), rows, now, map[], map[], []), r)
      ensures intents == if created then old(intents)[i := NewIntent(r, now)] else old(intents)
    {
      var blocked := IsBlocked(r.scope);
      var used := FindByOperationKey(r.scope, r.operation, r.key);
      if blocked || used.Some? || !WellTargeted(rows, r) {
        return false;
      }
      intents := intents[i := NewIntent(r, now).(targets := [])];
      created := AddTargets(i, r.ids, Waiting);
    }

    /** `claim_recovery`, after the check that the intent is recoverable. */
    method ClaimRecovery(i: nat, now: int) returns (claimed: bool)
      requires i in intents
      modifies this`intents
      ensures var x := old(intents)[i];
        (claimed, intents) ==
          if Blocking(x.status)
          then (MutationIntents.ClaimRecovery(x, now).0, old(intents)[i := MutationIntents.ClaimRecovery(x, now).1])
          else (false, old(intents))
    {
      var x := intents[i];
      if !Blocking(x.status) {
        return false;
      }
      if x.status.Active? && LiveLease(x, now) {
        assert intents == intents[i := x];
        return false;
      }
      var observe := ObservesExhaustedAdd(x);
      if x.attempts >= MAX_ATTEMPTS && !observe {
        intents := intents[i := MarkUnresolved(x, now)];
        return false;
      }
      intents := intents[i := x.(attempts := if observe then x.attempts else x.attempts + 1, status := Active,
                                 lease := Some(now + LEASE), updatedAt := now)];
      return true;
    }

    /** The section in which a request, or a recovery pass, records what an add added. */
    method CommitAdd(w: Worker, recovered: bool, records: seq<Record>, result: string, now: int) returns (committed: bool)
      requires w.intent in intents
      requires Runs(w, intents[w.intent].operation, |intents[w.intent].targets|, AddSection(recovered, records, result))
      modifies this
      ensures Outcome(old(intents), old(rows), now, w, AddSection(recovered, records, result), committed)
    {
      var i, before, rowsBefore := w.intent, intents, rows;
      if !FenceHolds(intents, w) {
        return false;
      }
      UpsertMemories(intents[i].scope, records, now);
      committed := AddTargets(i, Memories(records), Succeeded);
      if !committed {
        intents, rows := before, rowsBefore;
        return;
      }
      var x := intents[i];
      if recovered {
        x := x.(targets := MarkAll(x.targets, Succeeded));
      }
      intents := intents[i := Complete(x.(event := EventSucceeded), result, now)];
    }

    /** A section left the tables as its effect says, or as they were. */
    ghost predicate Outcome(before: Intents, rowsBefore: Rows, now: int, w: Worker, section: Section, committed: bool)
      requires w.intent in before && Runs(w, before[w.intent].operation, |before[w.intent].targets|, section)
      reads this
    {
      match Committed(before, rowsBefore, now, w, section)
      case None => !committed && intents == before && rows == rowsBefore
      case Some(change) => committed && intents == before[w.intent := change.intent] && rows == change.rows
    }

    /** A batch of an entity delete: a row that changed since the request began undoes the whole batch. */
    method CommitEntityBatch(w: Worker, deleted: seq<bool>, cut: bool, now: int) returns (committed: bool)
      requires w.intent in intents && Runs(w, intents[w.intent].operation, |intents[w.intent].targets|, EntityBatch(deleted, cut))
      modifies this
      ensures Outcome(old(intents), old(rows), now, w, EntityBatch(deleted, cut), committed)
    {
      var x, rowsBefore := intents[w.intent], rows;
      if !FenceHolds(intents, w) {
        return false;
      }
      var targets := x.targets;
      for n := 0 to |deleted|
        invariant intents == old(intents)
        invariant BatchUnchanged(x, rows, w, deleted, n) == BatchUnchanged(x, rowsBefore, w, deleted, 0)
        invariant BatchRows(x, rows, w, deleted, n) == BatchRows(x, rowsBefore, w, deleted, 0)
        invariant targets == BatchTargets(x.targets, w.position, deleted[..n])
      {
        var memory := x.targets[w.position + n].memory;
        if deleted[n] {
          var row := GetRow(rows, x.scope, memory);
          if row.None? || memory !in w.before || row.value.updatedAt != w.before[memory].updatedAt {
            rows := rowsBefore;
            return false;
          }
          DeleteMemory(x.scope.project, memory);
        }
        targets := targets[w.position + n := targets[w.position + n].(status := if deleted[n] then Succeeded else Refused)];
      }
      assert deleted[..|deleted|] == deleted;
      intents := intents[w.intent := Renew(x.(targets := targets), now)];
      return true;
    }

    /** The last section of a recovered delete: the targets found missing upstream are done. */
    method CommitDeleteObserved(w: Worker, absent: set<string>, result: string, now: int) returns (committed: bool)
      requires w.intent in intents && Runs(w, intents[w.intent].operation, |intents[w.intent].targets|, DeleteObserved(absent, result))
      modifies this
      ensures Outcome(old(intents), old(rows), now, w, DeleteObserved(absent, result), committed)
    {
      if !FenceHolds(intents, w) {
        return false;
      }
      var x := intents[w.intent];
      var targets := x.targets;
      for n := 0 to |x.targets|
        invariant intents == old(intents) && |targets| == |x.targets|
        invariant rows == DeleteRows(old(rows), x.scope.project, WaitingIn(x.targets[..n], absent))
        invariant forall k :: 0 <= k < n ==> targets[k] == MarkMissing(x.targets, absent)[k]
        invariant forall k :: n <= k < |targets| ==> targets[k] == x.targets[k]
      {
        WaitingMore(x.targets, absent, n);
        assert WaitingIn(x.targets[..n], absent) + [] == WaitingIn(x.targets[..n], absent);
        if targets[n].status.Waiting? && targets[n].memory in absent {
          DeleteMore(old(rows), x.scope.project, WaitingIn(x.targets[..n], absent), targets[n].memory);
          DeleteMemory(x.scope.project, targets[n].memory);
          targets := targets[n := targets[n].(status := Succeeded)];
        }
      }
      assert x.targets[..|x.targets|] == x.targets;
      assert targets == MarkMissing(x.targets, absent);
      var y := x.(targets := targets);
      intents := intents[w.intent :=
        if CountTargets(targets, Waiting) > 0 then MarkUnresolved(y.(event := EventFailed), now) else Settled(y, result, now)];
      return true;
    }

    /** `_record_intent_failure`. */
    method RecordIntentFailure(w: Worker, outcomeUnknown: bool, markEvent: bool, now: int) returns (committed: bool)
      requires w.creator && w.intent in intents
      modifies this`intents
      ensures Outcome(old(intents), old(rows), now, w, RecordFailure(outcomeUnknown, markEvent), committed)
    {
      if !FenceHolds(intents, w) {
        return false;
      }
      var x := intents[w.intent];
      if markEvent {
        x := x.(event := EventFailed);
      }
      intents := intents[w.intent := if outcomeUnknown then MarkUnresolved(x, now) else Fail(x, Failed, now)];
      return true;
    }

    /** The second locked section of `resolve_intent`; the first makes the same checks. */
    method ResolveIntent(i: nat, expectedStatus: Status, expectedAttempts: nat, now: int) returns (resolved: bool)
      modifies this`intents
      ensures intents == ResolveStep(World(old(intents), rows, now, map[], map[], []), i, expectedStatus, expectedAttempts).intents
      ensures resolved <==> i in old(intents) && Resolvable(old(intents)[i], now, expectedStatus, expectedAttempts)
    {
      if i !in intents {
        return false;
      }
      var x := intents[i];
      if !(x.status.Unknown? || x.status.Exhausted?) || LiveLease(x, now) {
        return false;
      }
      if x.status != expectedStatus || x.attempts != expectedAttempts {
        return false;
      }
      intents := intents[i := Fail(x.(event := EventFailed), Failed, now)];
      return true;
    }
  }
}
