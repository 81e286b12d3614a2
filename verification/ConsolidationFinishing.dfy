// From which states reruns of the finalizer can bring a proposal to its end, and
// what makes them lose the way: judged by what the tables and upstream hold.
module ConsolidationFinishing {
  import opened Consolidation
  import opened Wrappers

  /** What decides about a proposal: rows, upstream, the open intent of its application, and the lineage table. */
  datatype View = View(rows: Rows, upstream: map<string, Copy>, open: Option<Intent>, lineage: seq<(nat, string)>)

  // ---------------------------------------------------------------- one target

  predicate Listed(v: View, id: nat, m: string) { (id, m) in v.lineage }

  /** Deleted here, and gone upstream. */
  predicate Buried(v: View, p: Proposal, m: string) {
    m in v.rows && v.rows[m].app == p.app && !v.rows[m].live && m !in v.upstream
  }

  predicate Fitting(v: View, id: nat, p: Proposal, m: string) {
    LiveIn(v.rows, p.app, m) && m in p.hashes && TargetFits(v.rows[m], id, p.hashes[m])
  }

  /** Fit to be deleted, and upstream as it was. */
  predicate Deletable(v: View, id: nat, p: Proposal, m: string) {
    Fitting(v, id, p, m) && UpstreamMatches(v.upstream, p.app, m, p.hashes[m])
  }

  /** Recovery may claim the intent (once its lease is over) and will settle it. */
  predicate Recovers(x: Intent, upstream: map<string, Copy>) {
    !x.state.Spent? && x.attempts < MAX_ATTEMPTS && Settles(x.task, upstream)
  }

  /** Live, but recovering the open intent will delete it. */
  predicate Healable(v: View, p: Proposal, m: string) {
    && LiveIn(v.rows, p.app, m) && v.open.Some? && v.open.value.task.Deleting? && m in v.open.value.task.memories
    && Recovers(v.open.value, v.upstream)
  }

  predicate Good(v: View, id: nat, p: Proposal, m: string) {
    Listed(v, id, m) || Buried(v, p, m) || Deletable(v, id, p, m) || Healable(v, p, m)
  }

  predicate ToDelete(v: View, id: nat, p: Proposal, m: string) { !Listed(v, id, m) && Deletable(v, id, p, m) }

  predicate ToHeal(v: View, id: nat, p: Proposal, m: string) { !Listed(v, id, m) && Healable(v, p, m) }

  // ---------------------------------------------------------------- the proposal

  /** Shadowed and exported; whether grace is over is a matter of time. */
  predicate Awaiting(p: Proposal) { p.status.ShadowedStatus? && p.notBefore.Some? && p.exportId.Some? }

  /** What a deletion needs besides: the canonical upstream, and no open intent that recovery would leave unresolved. */
  predicate Clear(v: View, p: Proposal) {
    CanonicalMatches(v.upstream, p, p.hashes) && (v.open.Some? ==> Recovers(v.open.value, v.upstream))
  }

  /**
   * Every target is recorded, deleted on both sides, or still as expected on both sides.  A target that is only gone
   * upstream will do if recovery deletes its row before its turn: that takes an earlier target that is to be deleted.
   */
  ghost predicate CanFinish(v: View, id: nat, p: Proposal) {
    && Awaiting(p)
    && (forall m :: m in Targets(p) ==> Good(v, id, p, m))
    && (forall k :: 0 <= k < |Targets(p)| && ToHeal(v, id, p, Targets(p)[k]) ==>
          exists j :: 0 <= j < k && ToDelete(v, id, p, Targets(p)[j]))
    && (forall m :: m in Targets(p) && ToDelete(v, id, p, m) ==> Clear(v, p))
  }

  /** Target number `at` is next, all before it are recorded. */
  ghost predicate Next(v: View, id: nat, p: Proposal, at: nat) {
    at < |Targets(p)| && forall k :: 0 <= k < at ==> Listed(v, id, Targets(p)[k])
  }

  /** A live target whose turn has come must be deletable: recovery is not tried for it alone. */
  lemma LiveNext(v: View, id: nat, p: Proposal, at: nat)
    requires Next(v, id, p, at) && CanFinish(v, id, p)
    ensures var m := Targets(p)[at]; Listed(v, id, m) || Buried(v, p, m) || (Deletable(v, id, p, m) && Clear(v, p))
  {
    hide Targets, Buried, Deletable, Healable, Clear, Listed;
    var m := Targets(p)[at];
    assert Good(v, id, p, m);
  }

  // ---------------------------------------------------------------- recovery

  /** The view once the open intent is settled. */
  function Resolved(v: View): View
    requires v.open.Some?
  {
    v.(rows := Bury(v.rows, Vanished(v.open.value.task, v.upstream)), open := None)
  }

  lemma ResolvedJudged(v: View, id: nat, p: Proposal, m: string)
    requires v.open.Some? && Settles(v.open.value.task, v.upstream)
    ensures Deletable(Resolved(v), id, p, m) <==> Deletable(v, id, p, m)
    ensures Buried(v, p, m) ==> Buried(Resolved(v), p, m)
    ensures Buried(Resolved(v), p, m) && Recovers(v.open.value, v.upstream) ==> Buried(v, p, m) || Healable(v, p, m)
    ensures Healable(v, p, m) ==> Buried(Resolved(v), p, m)
    ensures !Healable(Resolved(v), p, m) && (Listed(Resolved(v), id, m) <==> Listed(v, id, m))
  {
    hide TargetFits;
  }

  /** With a target to be deleted next, finishing takes that recovery settles the intent, and finishing from there. */
  lemma ResolvedIff(v: View, id: nat, p: Proposal, at: nat)
    requires v.open.Some? && Next(v, id, p, at) && ToDelete(v, id, p, Targets(p)[at])
    requires CanonicalMatches(v.upstream, p, p.hashes)
    ensures CanFinish(v, id, p) <==> Recovers(v.open.value, v.upstream) && CanFinish(Resolved(v), id, p)
  {
    var r, ts := Resolved(v), Targets(p);
    assert CanFinish(v, id, p) ==> Recovers(v.open.value, v.upstream);
    if Recovers(v.open.value, v.upstream) {
      forall m | m in ts
        ensures Good(v, id, p, m) <==> Good(r, id, p, m)
        ensures ToDelete(v, id, p, m) <==> ToDelete(r, id, p, m)
        ensures !ToHeal(r, id, p, m)
      {
        ResolvedJudged(v, id, p, m);
      }
      assert Clear(v, p) && Clear(r, p);
      forall k | 0 <= k < |ts| && ToHeal(v, id, p, ts[k]) ensures exists j :: 0 <= j < k && ToDelete(v, id, p, ts[j]) {
        assert k > at by { HealLater(v, id, p, at, k); }
        assert ToDelete(v, id, p, ts[at]);
      }
      hide Targets, Good, ToDelete, ToHeal, Clear, Resolved;
      assert forall k :: 0 <= k < |ts| ==> ts[k] in ts;
    }
  }

  lemma HealLater(v: View, id: nat, p: Proposal, at: nat, k: nat)
    requires Next(v, id, p, at) && ToDelete(v, id, p, Targets(p)[at]) && k < |Targets(p)| && ToHeal(v, id, p, Targets(p)[k])
    ensures k > at
  {
    hide Targets, TargetFits;
  }

  // ---------------------------------------------------------------- deletion

  /** The view once a target is deleted on both sides. */
  function Deleted(v: View, m: string): View { v.(rows := Bury(v.rows, {m}), upstream := v.upstream - {m}) }

  lemma DeletedJudged(v: View, id: nat, p: Proposal, m: string, n: string)
    requires v.open.None? && Deletable(v, id, p, m)
    ensures n != m ==> (Deletable(Deleted(v, m), id, p, n) <==> Deletable(v, id, p, n))
    ensures n != m ==> (Buried(Deleted(v, m), p, n) <==> Buried(v, p, n))
    ensures Buried(Deleted(v, m), p, m) && !Deletable(Deleted(v, m), id, p, m)
    ensures !Healable(v, p, n) && !Healable(Deleted(v, m), p, n) && (Listed(Deleted(v, m), id, n) <==> Listed(v, id, n))
  {
    hide TargetFits;
  }

  lemma CanonicalStays(upstream: map<string, Copy>, p: Proposal, m: string)
    requires p.canonical != Some(m)
    ensures CanonicalMatches(upstream - {m}, p, p.hashes) <==> CanonicalMatches(upstream, p, p.hashes)
  {
  }

  /** Deleting the next target changes nothing about whether the proposal can be finished. */
  lemma DeletedIff(v: View, id: nat, p: Proposal, m: string)
    requires v.open.None? && m in Targets(p) && ToDelete(v, id, p, m) && CanonicalMatches(v.upstream, p, p.hashes)
    ensures CanFinish(v, id, p) <==> CanFinish(Deleted(v, m), id, p)
  {
    var d, ts := Deleted(v, m), Targets(p);
    CanonicalStays(v.upstream, p, m);
    assert Clear(v, p) && Clear(d, p);
    forall n | n in ts ensures (Good(v, id, p, n) <==> Good(d, id, p, n)) && !ToHeal(v, id, p, n) && !ToHeal(d, id, p, n) {
      DeletedJudged(v, id, p, m, n);
    }
    hide Targets, Good, ToDelete, ToHeal, Clear, Deleted;
    assert forall k :: 0 <= k < |ts| ==> ts[k] in ts;
  }

  // ---------------------------------------------------------------- recording

  function Noted(v: View, id: nat, m: string): View { v.(lineage := v.lineage + [(id, m)]) }

  /** So does recording a target that is deleted on both sides. */
  lemma NotedIff(v: View, id: nat, p: Proposal, m: string)
    requires Buried(v, p, m)
    ensures CanFinish(v, id, p) <==> CanFinish(Noted(v, id, m), id, p)
  {
    var d, ts := Noted(v, id, m), Targets(p);
    forall n | n in ts
      ensures (Good(v, id, p, n) <==> Good(d, id, p, n)) && (ToHeal(v, id, p, n) <==> ToHeal(d, id, p, n))
      ensures ToDelete(v, id, p, n) <==> ToDelete(d, id, p, n)
    {
      NotedJudged(v, id, p, m, n);
    }
    assert Clear(v, p) <==> Clear(d, p);
    hide Targets, Good, ToDelete, ToHeal, Clear, Noted;
    assert forall k :: 0 <= k < |ts| ==> ts[k] in ts;
  }

  lemma NotedJudged(v: View, id: nat, p: Proposal, m: string, n: string)
    requires Buried(v, p, m)
    ensures var d := Noted(v, id, m);
      && (Deletable(d, id, p, n) <==> Deletable(v, id, p, n)) && (Buried(d, p, n) <==> Buried(v, p, n))
      && (Healable(d, p, n) <==> Healable(v, p, n)) && (Listed(d, id, n) <==> Listed(v, id, n) || n == m)
      && !Deletable(v, id, p, m) && !Healable(v, p, m)
  {
    hide TargetFits;
  }

  // ---------------------------------------------------------------- dead ends

  /** Next, and gone upstream only: no rerun gets past it, whatever intent is open. */
  lemma GoneOnly(v: View, id: nat, p: Proposal, at: nat)
    requires Next(v, id, p, at) && !Listed(v, id, Targets(p)[at])
    requires LiveIn(v.rows, p.app, Targets(p)[at]) && Targets(p)[at] !in v.upstream
    ensures !CanFinish(v, id, p)
  {
    if CanFinish(v, id, p) {
      LiveNext(v, id, p, at);
    }
  }

  /** Next, and still there on both sides, but with an open intent that recovery leaves unresolved. */
  lemma Blocked(v: View, id: nat, p: Proposal, m: string)
    requires m in Targets(p) && ToDelete(v, id, p, m) && v.open.Some? && !Recovers(v.open.value, v.upstream)
    ensures !CanFinish(v, id, p)
  {
  }

  lemma AllListed(v: View, id: nat, p: Proposal)
    requires Awaiting(p) && forall k :: 0 <= k < |Targets(p)| ==> Listed(v, id, Targets(p)[k])
    ensures CanFinish(v, id, p)
  {
    hide Targets;
    forall m | m in Targets(p) ensures Listed(v, id, m) {
      var k :| 0 <= k < |Targets(p)| && Targets(p)[k] == m;
      assert Listed(v, id, Targets(p)[k]);
    }
  }
}
